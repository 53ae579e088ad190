/**
 The sliding-window rate limiter of providers/openrouter.py.  `Attempt` is the section that
 holds the lock; a run of any number of threads is a sequence of attempts at times that do
 not decrease, so what `Valid` says holds of every run.
 */
module RateLimiter {
  import opened Common

  const WINDOW: real := 60.0
  const NAP: real := 0.5

  ghost predicate Ordered(times: seq<real>) {
    forall i, j :: 0 <= i < j < |times| ==> times[i] <= times[j]
  }

  /** How many of the first `n` times are less than a window old at `now`. */
  ghost function Recent(times: seq<real>, now: real, n: nat): nat
    requires n <= |times|
  {
    if n == 0 then 0 else Recent(times, now, n - 1) + (if now - times[n - 1] < WINDOW then 1 else 0)
  }

  /** Which of the first `n` times are less than a minute old at `now`. */
  ghost function Young(times: seq<real>, now: real, n: nat): set<nat>
    requires n <= |times|
  {
    set i: nat | i < n && now - times[i] < 60.0
  }

  lemma {:induction false} RecentCounts(times: seq<real>, now: real, n: nat)
    requires n <= |times|
    ensures Recent(times, now, n) == |Young(times, now, n)|
  {
    if n == 0 {
    } else {
      RecentCounts(times, now, n - 1);
      assert Young(times, now, n) ==
             if now - times[n - 1] < 60.0 then Young(times, now, n - 1) + {n - 1} else Young(times, now, n - 1);
    }
  }

  /** Which of the first `n` times fall in the minute from `start` on. */
  ghost function InMinute(times: seq<real>, start: real, n: nat): set<nat>
    requires n <= |times|
  {
    set i: nat | i < n && start <= times[i] < start + 60.0
  }

  lemma {:induction false} WindowCounts(times: seq<real>, start: real, n: nat)
    requires n <= |times|
    ensures InWindow(times, start, n) == |InMinute(times, start, n)|
  {
    if n == 0 {
    } else {
      WindowCounts(times, start, n - 1);
      assert InMinute(times, start, n) ==
             if start <= times[n - 1] < start + 60.0 then InMinute(times, start, n - 1) + {n - 1}
             else InMinute(times, start, n - 1);
    }
  }

  /** How many of the first `n` times fall in [start, start + 60). */
  ghost function InWindow(times: seq<real>, start: real, n: nat): nat
    requires n <= |times|
  {
    if n == 0 then 0
    else InWindow(times, start, n - 1) + (if start <= times[n - 1] < start + WINDOW then 1 else 0)
  }

  /** Any two grants `rpm` places apart are at least a window apart. */
  ghost predicate Spaced(grants: seq<real>, rpm: nat) {
    forall i, j :: 0 <= i && i + rpm <= j < |grants| ==> grants[j] - grants[i] >= WINDOW
  }

  /** `sent` is what is left of the grants once the first `head` have left the window ending at `last`. */
  ghost predicate Consistent(rpm: nat, sent: seq<real>, grants: seq<real>, head: nat, last: real) {
    && rpm > 0
    && head <= |grants| && sent == grants[head..] && |sent| <= rpm
    && Ordered(grants) && Spaced(grants, rpm)
    && (forall i :: 0 <= i < |grants| ==> grants[i] <= last)
    && (forall i :: 0 <= i < head ==> last - grants[i] >= WINDOW)
  }

  lemma {:induction false} Dropped(rpm: nat, sent: seq<real>, grants: seq<real>, head: nat, last: real)
    requires Consistent(rpm, sent, grants, head, last) && sent != [] && last - sent[0] >= WINDOW
    ensures Consistent(rpm, sent[1..], grants, head + 1, last)
  {
    assert grants[head + 1..] == sent[1..];
  }

  lemma {:induction false} Granted(rpm: nat, sent: seq<real>, grants: seq<real>, head: nat, last: real)
    requires Consistent(rpm, sent, grants, head, last) && |sent| < rpm
    ensures Consistent(rpm, sent + [last], grants + [last], head, last)
  {
    var more := grants + [last];
    assert more[head..] == sent + [last];
    forall i | 0 <= i && i + rpm <= |grants| ensures last - more[i] >= WINDOW {
      assert i < head;
    }
  }

  lemma {:induction false} Counted(rpm: nat, sent: seq<real>, grants: seq<real>, head: nat, last: real)
    requires Consistent(rpm, sent, grants, head, last) && (sent != [] ==> last - sent[0] < WINDOW)
    ensures |Young(grants, last, |grants|)| == |sent|
  {
    RecentCounts(grants, last, |grants|);
    RecentIsTheTail(grants, last, head, |grants|);
  }

  class RpmLimiter {
    const rpm: nat
    var sent: seq<real>
    ghost var grants: seq<real>     // every grant so far
    ghost var head: nat             // how many of them have left the window
    ghost var last: real            // the latest time at which the lock was held

    ghost predicate Valid()
      reads this
    {
      Consistent(rpm, sent, grants, head, last)
    }

    constructor (rpm: nat, now: real)
      requires rpm > 0
      ensures Valid() && this.rpm == rpm && grants == [] && last == now
    {
      this.rpm := rpm;
      sent, grants, head, last := [], [], 0, now;
    }

    /**
     One turn with the lock held: granted exactly when fewer than `rpm` grants are less than
     a minute old; otherwise the time until the oldest of them is.
     */
    method Attempt(now: real) returns (granted: bool, wait: real)
      requires Valid() && now >= last
      modifies this
      ensures Valid() && last == now
      ensures granted <==> |Young(old(grants), now, |old(grants)|)| < rpm
      ensures grants == if granted then old(grants) + [now] else old(grants)
      ensures old(sent) != [] && now - old(sent)[0] >= WINDOW ==> granted
      ensures !granted ==> |sent| == rpm && wait == WINDOW - (now - sent[0]) > 0.0 && sent == old(sent)
    {
      assert |sent| <= rpm;
      last := now;
      assert Consistent(rpm, sent, grants, head, last);
      hide Consistent, Recent, Young;
      while sent != [] && now - sent[0] >= WINDOW
        invariant Valid() && last == now && grants == old(grants) && |sent| <= |old(sent)|
        invariant sent == old(sent) || |sent| < |old(sent)|
        decreases |sent|
      {
        Dropped(rpm, sent, grants, head, last);
        sent := sent[1..];
        head := head + 1;
      }
      Counted(rpm, sent, grants, head, last);
      if |sent| < rpm {
        Granted(rpm, sent, grants, head, last);
        sent := sent + [now];
        grants := grants + [now];
        return true, 0.0;
      }
      return false, WINDOW - (now - sent[0]);
    }
  }

  /** What every state of the limiter promises: no half-open minute holds more than `rpm` grants. */
  lemma {:induction false} NoMinuteHoldsMore(rpm: nat, sent: seq<real>, grants: seq<real>, head: nat, last: real,
                                             start: real)
    requires Consistent(rpm, sent, grants, head, last)
    ensures |InMinute(grants, start, |grants|)| <= rpm
  {
    WindowBound(grants, rpm, start, |grants|);
    WindowCounts(grants, start, |grants|);
  }

  lemma {:induction false} RecentIsTheTail(times: seq<real>, now: real, head: nat, n: nat)
    requires head <= |times| && n <= |times| && Ordered(times)
    requires forall i :: 0 <= i < head ==> now - times[i] >= WINDOW
    requires head < |times| ==> now - times[head] < WINDOW
    ensures Recent(times, now, n) == Monus(n, head)
  {
    if n == 0 {
    } else {
      RecentIsTheTail(times, now, head, n - 1);
      if head < n - 1 {
        assert times[head] <= times[n - 1];
      }
    }
  }

  /** No half-open minute, wherever it starts, holds more than `rpm` grants. */
  lemma {:induction false} WindowBound(grants: seq<real>, rpm: nat, start: real, n: nat)
    requires rpm > 0 && n <= |grants| && Ordered(grants) && Spaced(grants, rpm)
    ensures InWindow(grants, start, n) <= rpm
  {
    if n == 0 {
    } else {
      if start <= grants[n - 1] < start + WINDOW {
        WindowTail(grants, rpm, start, n - 1, n - 1);
        if n > rpm {
          assert grants[n - 1] - grants[n - 1 - rpm] >= WINDOW;
        }
      } else {
        WindowBound(grants, rpm, start, n - 1);
      }
    }
  }

  /** Below a grant in the window, only the `rpm - 1` grants before it can be in the window too. */
  lemma {:induction false} WindowTail(grants: seq<real>, rpm: nat, start: real, top: nat, n: nat)
    requires rpm > 0 && n <= top < |grants| && Ordered(grants) && Spaced(grants, rpm)
    requires start <= grants[top] < start + WINDOW
    ensures InWindow(grants, start, n) <= Monus(n, Monus(top + 1, rpm))
  {
    if n == 0 {
    } else {
      WindowTail(grants, rpm, start, top, n - 1);
      if n - 1 + rpm <= top {
        assert grants[top] - grants[n - 1] >= WINDOW;
      }
    }
  }

  /** A clock that never goes back: every reading and every sleep may take a little longer than asked. */
  class Clock {
    const drift: nat -> real
    var now: real
    var ticks: nat

    ghost predicate Valid()
    {
      forall i: nat :: drift(i) >= 0.0
    }

    constructor (drift: nat -> real, start: real)
      requires forall i: nat :: drift(i) >= 0.0
      ensures Valid() && now == start
    {
      this.drift := drift;
      now, ticks := start, 0;
    }

    method Advance(amount: real) returns (t: real)
      requires Valid() && amount >= 0.0
      modifies this
      ensures t == now == old(now) + amount + drift(old(ticks)) >= old(now) + amount && ticks == old(ticks) + 1
    {
      now := now + amount + drift(ticks);
      ticks := ticks + 1;
      t := now;
    }
  }

  /** How many grants fit into a stretch of time. */
  ghost function Room(rpm: nat, span: real): nat
    decreases if span < 0.0 then 0 else span.Floor + 1
  {
    if span < 0.0 then 0 else rpm + Room(rpm, span - WINDOW)
  }

  lemma {:induction false} GrantsFit(grants: seq<real>, rpm: nat, base: nat, start: real, end: real)
    requires rpm > 0 && base <= |grants| && Ordered(grants) && Spaced(grants, rpm)
    requires forall i :: base <= i < |grants| ==> start <= grants[i] <= end
    ensures |grants| - base <= Room(rpm, end - start)
    decreases |grants| - base
  {
    if |grants| - base > rpm {
      forall i | base + rpm <= i < |grants| ensures grants[i] >= start + WINDOW {
        assert grants[i] - grants[i - rpm] >= WINDOW;
      }
      GrantsFit(grants, rpm, base + rpm, start + WINDOW, end);
      assert end - (start + WINDOW) == end - start - WINDOW;
      assert start <= grants[base] <= end;
    } else if |grants| > base {
      assert start <= grants[base] <= end;
    }
  }

  /** Other threads take their turns, any number of them, while the clock goes on. */
  method OthersTry(limiter: RpmLimiter, clock: Clock, turns: nat)
    requires limiter.Valid() && clock.Valid() && limiter.last <= clock.now
    modifies limiter, clock
    ensures limiter.Valid() && limiter.last <= clock.now && clock.now >= old(clock.now)
    ensures old(limiter.grants) <= limiter.grants
    ensures forall i :: |old(limiter.grants)| <= i < |limiter.grants| ==> limiter.grants[i] >= old(clock.now)
    ensures |limiter.grants| == |old(limiter.grants)| ==> limiter.sent == old(limiter.sent)
  {
    hide Consistent, Recent;
    for k := 0 to turns
      invariant limiter.Valid() && limiter.last <= clock.now && clock.now >= old(clock.now)
      invariant old(limiter.grants) <= limiter.grants
      invariant forall i :: |old(limiter.grants)| <= i < |limiter.grants| ==> limiter.grants[i] >= old(clock.now)
      invariant |limiter.grants| == |old(limiter.grants)| ==> limiter.sent == old(limiter.sent)
    {
      var now := clock.Advance(0.0);
      var granted, wait := limiter.Attempt(now);
    }
  }

  /** One turn of the wait loop: the others first, then this thread with the lock held. */
  method Turn(limiter: RpmLimiter, clock: Clock, others: nat) returns (granted: bool, now: real, wait: real)
    requires limiter.Valid() && clock.Valid() && limiter.last <= clock.now
    modifies limiter, clock
    ensures limiter.Valid() && limiter.last == now == clock.now >= old(clock.now)
    ensures old(limiter.grants) <= limiter.grants
    ensures forall i :: |old(limiter.grants)| <= i < |limiter.grants| ==> limiter.grants[i] >= old(clock.now)
    ensures granted ==> |limiter.grants| > |old(limiter.grants)| && limiter.grants[|limiter.grants| - 1] == now
    ensures !granted ==> |limiter.sent| == limiter.rpm > 0 && wait == WINDOW - (now - limiter.sent[0]) > 0.0
    ensures |old(limiter.sent)| < limiter.rpm || old(clock.now) - old(limiter.sent)[0] >= WINDOW ==>
              |limiter.grants| > |old(limiter.grants)|
  {
    assert limiter.rpm > 0;
    hide Consistent, Recent;
    OthersTry(limiter, clock, others);
    now := clock.Advance(0.0);
    granted, wait := limiter.Attempt(now);
  }

  /** What bounds the wait: half-seconds left, and grants that still fit before the deadline. */
  ghost function Patience(limit: real, tried: real, room: nat, used: int): int {
    (2.0 * (limit - tried)).Floor + room - used
  }

  lemma {:induction false} PatienceRunsOut(limit: real, tried: real, now: real, room: nat, used: int, used': int)
    requires tried <= now <= limit && used <= used' <= room && (now >= tried + NAP || used' > used)
    ensures 0 <= Patience(limit, now, room, used') < Patience(limit, tried, room, used)
  {
  }

  /**
   `acquire`, with any number of other threads' turns before each of its own: it returns with a
   grant, or gives up because the next slot opens after the deadline; it never loops forever,
   since a nap that finds its slot taken means another grant, and only so many fit before the
   deadline.  The deadline is the first reading of the clock plus `maxWait`: no sleep is asked for
   past it, and no turn is waited for whose slot opens after it.
   */
  method Acquire(limiter: RpmLimiter, clock: Clock, maxWait: real, others: nat -> nat)
    returns (granted: bool, ghost deadline: real, ghost naps: seq<Nap>)
    requires limiter.Valid() && clock.Valid() && limiter.last <= clock.now
    modifies limiter, clock
    ensures limiter.Valid() && limiter.last <= clock.now && old(limiter.grants) <= limiter.grants
    ensures granted ==> |limiter.grants| > |old(limiter.grants)| && limiter.grants[|limiter.grants| - 1] == limiter.last
    ensures deadline == old(clock.now) + clock.drift(old(clock.ticks)) + maxWait && NapsBy(naps, deadline)
    ensures !granted ==> |limiter.sent| == limiter.rpm && limiter.sent[0] + 60.0 > deadline
  {
    ghost var base, start := |limiter.grants|, clock.now;
    var t := clock.Advance(0.0);
    var limit := t + maxWait;
    deadline, naps := limit, [];
    hide *;
    NoNaps(limit);
    var turn := 0;
    ghost var tried, room := start, Room(limiter.rpm, limit - start);
    ghost var freed := false;     // the nap just taken lasted until a slot was free
    while true
      invariant limiter.Valid() && clock.Valid() && limiter.last <= clock.now && NapsBy(naps, limit)
      invariant old(limiter.grants) <= limiter.grants && start <= tried <= clock.now
      invariant forall i :: base <= i < |limiter.grants| ==> limiter.grants[i] >= start
      invariant turn > 0 && !freed ==> clock.now >= tried + NAP
      invariant turn > 0 && freed ==> limiter.sent != [] && clock.now - limiter.sent[0] >= WINDOW
      invariant turn > 0 ==> Patience(limit, tried, room, |limiter.grants| - base) >= 0
      decreases if turn == 0 then 1 else 0,
                if turn == 0 then 0 else Patience(limit, tried, room, |limiter.grants| - base)
    {
      ghost var used := |limiter.grants| - base;
      var now: real, wait: real;
      granted, now, wait := Turn(limiter, clock, others(turn));
      if granted || now + wait > limit {
        return;
      }
      GrantsSoFarFit(limiter, base, start, now, limit);
      if turn > 0 {
        PatienceRunsOut(limit, tried, now, room, used, |limiter.grants| - base);
      } else {
        PatienceAtFirst(limit, now, room, |limiter.grants| - base);
      }
      var nap := if wait < NAP then wait else NAP;
      OneMoreNap(naps, limit, now, limiter.sent[0], wait);
      naps := naps + [Nap(now, limiter.sent[0], nap)];
      tried, freed, turn := now, wait <= NAP, turn + 1;
      var woke := clock.Advance(nap);
    }
  }

  lemma {:induction false} PatienceAtFirst(limit: real, now: real, room: nat, used: int)
    requires now <= limit && used <= room
    ensures Patience(limit, now, room, used) >= 0
  {
  }

  lemma {:induction false} NoNaps(limit: real)
    ensures NapsBy([], limit)
  {
  }

  lemma {:induction false} OneMoreNap(naps: seq<Nap>, limit: real, now: real, oldest: real, wait: real)
    requires NapsBy(naps, limit) && 0.0 < wait == oldest + WINDOW - now && now + wait <= limit
    ensures NapsBy(naps + [Nap(now, oldest, if wait < NAP then wait else NAP)], limit)
  {
    assert NapBy(Nap(now, oldest, if wait < NAP then wait else NAP), limit);
    hide NapBy;
  }

  /** No nap is longer than half a second, nor outlasts the oldest grant's minute or the deadline. */
  lemma {:induction false} NapsAreShort(naps: seq<Nap>, deadline: real, i: nat)
    requires NapsBy(naps, deadline) && i < |naps|
    ensures var nap := naps[i];
            && 0.0 < nap.length <= 0.5
            && nap.at + nap.length <= nap.oldest + 60.0 <= deadline
            && (nap.length == 0.5 || nap.at + nap.length == nap.oldest + 60.0)
  {
    assert NapBy(naps[i], deadline);
  }

  lemma {:induction false} GrantsSoFarFit(limiter: RpmLimiter, base: nat, start: real, now: real, limit: real)
    requires limiter.Valid() && base <= |limiter.grants| && limiter.last == now <= limit
    requires forall i :: base <= i < |limiter.grants| ==> limiter.grants[i] >= start
    ensures |limiter.grants| - base <= Room(limiter.rpm, limit - start)
  {
    GrantsFit(limiter.grants, limiter.rpm, base, start, limit);
  }

  /** A sleep: when it began, which grant was then the oldest of a full window, and how long it was to be. */
  datatype Nap = Nap(at: real, oldest: real, length: real)

  /** Half a second, or less if the oldest grant leaves its minute sooner, which it does by the deadline. */
  ghost predicate NapBy(nap: Nap, deadline: real) {
    var wait := nap.oldest + 60.0 - nap.at;
    && 0.0 < wait && nap.at + wait <= deadline
    && nap.length == if wait < 0.5 then wait else 0.5
  }

  ghost predicate NapsBy(naps: seq<Nap>, deadline: real) {
    forall i :: 0 <= i < |naps| ==> NapBy(naps[i], deadline)
  }
}
