/**
 The dispatcher of llm_client.py: a circuit breaker per path, and streaming that fails over
 between paths only before the first chunk.
 */
module Failover {
  import opened Common
  import Thinking

  type Text = Thinking.Text
  type Error = Thinking.Error
  type Path(==, !new)                // a (provider, model) pair

  const COOLDOWN := 60.0
  const TRIP_AFTER: nat := 3

  /** What happened to a path; `counted` is false for our own rate limit. */
  datatype Event =
    | Failed(path: Path, at: real, counted: bool, tripped: bool)
    | Cleared(path: Path)

  /** The failures counted against a path since its last success or trip, after `n` events. */
  ghost function Since(events: seq<Event>, path: Path, n: nat): nat
    requires n <= |events|
  {
    if n == 0 then 0
    else
      var e := events[n - 1];
      if e.path != path then Since(events, path, n - 1)
      else if e.Cleared? || e.tripped then 0
      else Since(events, path, n - 1) + if e.counted then 1 else 0
  }

  /** When the path is open again: 0 unless it tripped since its last success. */
  ghost function OpenTill(events: seq<Event>, path: Path, n: nat): real
    requires n <= |events|
  {
    if n == 0 then 0.0
    else
      var e := events[n - 1];
      if e.path != path then OpenTill(events, path, n - 1)
      else if e.Cleared? then 0.0
      else if e.tripped then e.at + COOLDOWN
      else OpenTill(events, path, n - 1)
  }

  /** A circuit trips exactly on the third counted failure since the path's last success or trip. */
  ghost predicate TripsOnThird(events: seq<Event>) {
    forall i :: 0 <= i < |events| && events[i].Failed? ==>
      (events[i].tripped <==> events[i].counted && Since(events, events[i].path, i) == TRIP_AFTER - 1)
  }

  /** The two dictionaries say what the events say. */
  ghost predicate Tallies(events: seq<Event>, openUntil: map<Path, real>, failures: map<Path, nat>) {
    && TripsOnThird(events)
    && (forall p :: GetOr(failures, p, 0) == Since(events, p, |events|) < TRIP_AFTER)
    && (forall p :: GetOr(openUntil, p, 0.0) == OpenTill(events, p, |events|))
  }

  lemma {:induction false} PastIsPast(events: seq<Event>, e: Event, path: Path, n: nat)
    requires n <= |events|
    ensures Since(events + [e], path, n) == Since(events, path, n)
    ensures OpenTill(events + [e], path, n) == OpenTill(events, path, n)
  {
    if n == 0 {
    } else {
      PastIsPast(events, e, path, n - 1);
    }
  }

  lemma {:induction false} TallyStep(events: seq<Event>, openUntil: map<Path, real>, failures: map<Path, nat>, e: Event,
                                     openUntil': map<Path, real>, failures': map<Path, nat>)
    requires Tallies(events, openUntil, failures)
    requires e.Failed? ==> (e.tripped <==> e.counted && GetOr(failures, e.path, 0) == TRIP_AFTER - 1)
    requires forall p :: GetOr(failures', p, 0) ==
                         if p != e.path then GetOr(failures, p, 0)
                         else if e.Cleared? || e.tripped then 0
                         else GetOr(failures, p, 0) + if e.counted then 1 else 0
    requires forall p :: GetOr(openUntil', p, 0.0) ==
                         if p != e.path then GetOr(openUntil, p, 0.0)
                         else if e.Cleared? then 0.0
                         else if e.tripped then e.at + COOLDOWN
                         else GetOr(openUntil, p, 0.0)
    ensures Tallies(events + [e], openUntil', failures')
  {
    var all := events + [e];
    forall i | 0 <= i < |all| && all[i].Failed?
      ensures all[i].tripped <==> all[i].counted && Since(all, all[i].path, i) == TRIP_AFTER - 1
    {
      PastIsPast(events, e, all[i].path, i);
    }
    forall p
      ensures GetOr(failures', p, 0) == Since(all, p, |all|) < TRIP_AFTER
      ensures GetOr(openUntil', p, 0.0) == OpenTill(all, p, |all|)
    {
      PastIsPast(events, e, p, |events|);
    }
  }

  /**
   An open circuit means three counted failures of that path, nothing but failures of it since
   the first of them, and the last of the three less than a cooldown ago.
   */
  lemma {:induction false} OpenCircuitHadThreeFailures(events: seq<Event>, path: Path, n: nat, now: real)
    returns (i: nat, j: nat, k: nat)
    requires TripsOnThird(events) && n <= |events| && 0.0 <= now < OpenTill(events, path, n)
    ensures i < j < k < n && events[k].Failed? && events[k].tripped && now < events[k].at + 60.0
    ensures forall m :: m in {i, j, k} ==> events[m].Failed? && events[m].path == path && events[m].counted
    ensures forall m :: i <= m < n && events[m].path == path ==> events[m].Failed?
    ensures forall m :: i <= m < n && events[m].path == path && events[m].tripped ==> m == k
  {
    var e := events[n - 1];
    if e.path == path && e.Failed? && e.tripped {
      k := n - 1;
      j := LastCounted(events, path, k);
      i := LastCounted(events, path, j);
    } else {
      i, j, k := OpenCircuitHadThreeFailures(events, path, n - 1, now);
    }
  }

  /** The failure that brought the count to what it is, with nothing else counted since. */
  lemma {:induction false} LastCounted(events: seq<Event>, path: Path, n: nat) returns (k: nat)
    requires n <= |events| && Since(events, path, n) > 0
    ensures k < n && events[k].Failed? && events[k].path == path && events[k].counted && !events[k].tripped
    ensures Since(events, path, k) == Since(events, path, n) - 1
    ensures forall m :: k <= m < n && events[m].path == path ==> events[m].Failed? && !events[m].tripped
  {
    var e := events[n - 1];
    if e.path == path && e.counted {
      k := n - 1;
    } else {
      k := LastCounted(events, path, n - 1);
    }
  }

  /** Three counted failures with no success between them, none of the first two a trip, make the third one. */
  lemma {:induction false} ThirdFailureTrips(events: seq<Event>, i: nat, j: nat, k: nat)
    requires TripsOnThird(events) && i < j < k < |events|
    requires forall m :: m in {i, j, k} ==> events[m].Failed? && events[m].path == events[k].path && events[m].counted
    requires forall m :: i <= m < k && events[m].path == events[k].path ==> events[m].Failed? && !events[m].tripped
    ensures events[k].tripped
  {
    var path := events[k].path;
    SinceGrows(events, path, i + 1, j);
    SinceGrows(events, path, j + 1, k);
    SinceIsShort(events, path, k);
  }

  lemma {:induction false} SinceGrows(events: seq<Event>, path: Path, k: nat, n: nat)
    requires k <= n <= |events|
    requires forall m :: k <= m < n && events[m].path == path ==> events[m].Failed? && !events[m].tripped
    ensures Since(events, path, n) >= Since(events, path, k)
  {
    if k < n {
      SinceGrows(events, path, k, n - 1);
    }
  }

  lemma {:induction false} SinceIsShort(events: seq<Event>, path: Path, n: nat)
    requires TripsOnThird(events) && n <= |events|
    ensures Since(events, path, n) <= 2
  {
    if n == 0 {
    } else {
      SinceIsShort(events, path, n - 1);
    }
  }

  /** A tripped circuit is open for a whole cooldown unless the path succeeds or trips again. */
  lemma {:induction false} TrippedStaysOpen(events: seq<Event>, path: Path, k: nat, n: nat)
    requires k < n <= |events| && events[k].Failed? && events[k].path == path && events[k].tripped
    requires forall m :: k < m < n && events[m].path == path ==> events[m].Failed? && !events[m].tripped
    ensures OpenTill(events, path, n) == events[k].at + 60.0
  {
    if n == k + 1 {
    } else {
      TrippedStaysOpen(events, path, k, n - 1);
    }
  }

  /** How a backend stream ended, and what the code reads off the exception. */
  datatype End = Done | Broke(error: Error, permanent: bool, ownRateLimit: bool)

  datatype Served = Served(chunks: seq<Text>, end: End)

  datatype Outcome = Completed | Raised(error: Error) | AllOpen | DeadlineExceeded

  /** A call to Gemini: the config it was sent with, what it streamed, how it ended. */
  type Call = Thinking.Call<bool>

  /**
   One path looked at: `seen` events had happened, and clock reading `tick` found it was time `at`;
   `calls` are the upstream calls of a Gemini attempt.
   */
  datatype Step = Step(path: Path, tick: nat, at: real, seen: nat, served: Option<Served>, calls: seq<Call>)

  /** The attempt is followed by the next path, nothing having reached the caller. */
  ghost predicate FailsOver(served: Served) {
    served.chunks == [] && served.end.Broke? && !served.end.permanent
  }

  /** The step is right by the events before it, and left the right event, if any, after it. */
  ghost predicate StepHolds(events: seq<Event>, step: Step, next: nat) {
    && step.seen <= next <= |events|
    && (step.served.None? <==> step.at < OpenTill(events, step.path, step.seen))
    && match step.served {
         case None => next == step.seen
         case Some(s) =>
           if s.end.Done? then next == step.seen + 1 && events[step.seen] == Cleared(step.path)
           else if FailsOver(s) then
             && next == step.seen + 1
             && events[step.seen].Failed?
             && events[step.seen].path == step.path
             && events[step.seen].counted == !s.end.ownRateLimit
           else next == step.seen
       }
  }

  /** What Gemini's service streams in answer to each call of an attempt. */
  type Service = (nat, Option<Thinking.Config>) -> (seq<Text>, Thinking.Reply<bool>)

  /**
   The Gemini paths: their models, which of these think, the thinking config asked for, the service
   behind the i-th path, and how the dispatcher classifies what the backend raises.
   */
  datatype Gemini = Gemini(model: Path -> Option<Thinking.Model>, thinks: Path -> bool,
                           config: Path -> Option<Thinking.Config>, service: nat -> Service, note: Text,
                           noText: Error, permanent: Error -> bool, ownRateLimit: Error -> bool)

  /** One dispatch: its paths, Gemini's and what the others stream, the clock, and the time an attempt needs. */
  datatype Job = Job(paths: seq<Path>, gemini: Gemini, others: (nat, Path) -> Served, clock: nat -> real,
                     deadline: Option<real>, minAttempt: real)

  function Break(gemini: Gemini, error: Error): End {
    Broke(error, gemini.permanent(error), gemini.ownRateLimit(error))
  }

  /** What a Gemini attempt hands on, in terms of its last upstream call alone. */
  ghost function GeminiServed(gemini: Gemini, last: Call): Served {
    match last.reply
    case Good(truncated) =>
      if last.texts == [] then Served([], Break(gemini, gemini.noText))
      else Served(if truncated then last.texts + [gemini.note] else last.texts, Done)
    case Bad(failure) => Served(last.texts, Break(gemini, failure.error))
  }

  /** The upstream calls of an attempt: what the service answers, each but the last refused without a text. */
  ghost predicate CallsOf(gemini: Gemini, i: nat, calls: seq<Call>) {
    && calls != []
    && (forall k :: 0 <= k < |calls| ==> Thinking.Answers(gemini.service(i), k, calls[k]))
    && (forall k :: 0 <= k < |calls| - 1 ==> calls[k].texts == [] && calls[k].reply.Bad?)
  }

  /** Where an attempt's stream comes from. */
  ghost predicate ServedBy(job: Job, i: nat, path: Path, calls: seq<Call>, served: Served) {
    if job.gemini.model(path).None? then calls == [] && served == job.others(i, path)
    else CallsOf(job.gemini, i, calls) && served == GeminiServed(job.gemini, calls[|calls| - 1])
  }

  /** Clock reading `tick` still leaves an attempt its time. */
  ghost predicate TimeLeft(job: Job, tick: int) {
    job.deadline.None? || (0 <= tick && job.deadline.value - job.clock(tick) >= job.minAttempt)
  }

  /** The step looked at the i-th path, in time, and an attempt streamed what that path's backend gives. */
  ghost predicate StepOf(job: Job, i: nat, step: Step)
    requires i < |job.paths|
  {
    && step.path == job.paths[i]
    && step.at == job.clock(step.tick)
    && TimeLeft(job, step.tick - 1)
    && (if step.served.None? then step.calls == [] else ServedBy(job, i, step.path, step.calls, step.served.value))
  }

  /** The steps of one dispatch took the paths in order, and they account for every event since `first`. */
  ghost predicate Dispatched(job: Job, first: seq<Event>, events: seq<Event>, steps: seq<Step>) {
    && |steps| <= |job.paths|
    && (forall i :: 0 <= i < |steps| ==> StepOf(job, i, steps[i]))
    && (forall i :: 0 <= i < |steps| ==> StepHolds(events, steps[i], NextSeen(events, steps, i)))
    && first <= events
    && (if steps == [] then first == events else steps[0].seen == |first|)
  }

  ghost function NextSeen(events: seq<Event>, steps: seq<Step>, i: nat): nat {
    if i + 1 < |steps| then steps[i + 1].seen else |events|
  }

  /** Every path looked at so far was skipped or failed before its first chunk. */
  ghost predicate NothingYet(steps: seq<Step>, n: nat)
    requires n <= |steps|
  {
    forall i :: 0 <= i < n && steps[i].served.Some? ==> FailsOver(steps[i].served.value)
  }

  /** The last failure, if any path was attempted. */
  ghost function LastError(steps: seq<Step>, n: nat): Option<Error>
    requires n <= |steps|
  {
    if n == 0 then None
    else if steps[n - 1].served.Some? && steps[n - 1].served.value.end.Broke?
    then Some(steps[n - 1].served.value.end.error)
    else LastError(steps, n - 1)
  }

  /** The last step was an attempt the dispatcher stopped at. */
  ghost predicate Committed(steps: seq<Step>) {
    steps != [] && steps[|steps| - 1].served.Some? && !FailsOver(steps[|steps| - 1].served.value)
  }

  /** What the caller gets, in terms of the steps; paths left over mean that the time was up. */
  ghost predicate Answered(job: Job, steps: seq<Step>, sent: seq<Text>, outcome: Outcome, ticks: nat) {
    if Committed(steps) then
      var served := steps[|steps| - 1].served.value;
      && NothingYet(steps, |steps| - 1)
      && sent == served.chunks
      && outcome == if served.end.Done? then Completed else Raised(served.end.error)
    else
      && NothingYet(steps, |steps|)
      && sent == []
      && (|steps| < |job.paths| ==> !TimeLeft(job, ticks - 1))
      && var last := LastError(steps, |steps|);
         outcome == if last.Some? then Raised(last.value)
                    else if |steps| < |job.paths| then DeadlineExceeded
                    else AllOpen
  }

  /** The whole contract of one dispatch. */
  ghost predicate Concluded(job: Job, first: seq<Event>, events: seq<Event>, steps: seq<Step>, sent: seq<Text>,
                            outcome: Outcome, ticks: nat)
  {
    Dispatched(job, first, events, steps) && Answered(job, steps, sent, outcome, ticks)
  }

  /** The step was taken when `before` had happened, and `after` is what has happened now. */
  ghost predicate Taken(before: seq<Event>, step: Step, after: seq<Event>) {
    && step.seen == |before|
    && (step.served.None? <==> step.at < OpenTill(before, step.path, |before|))
    && if step.served.Some? && step.served.value.end.Done? then after == before + [Cleared(step.path)]
       else if step.served.Some? && FailsOver(step.served.value) then
         && |after| == |before| + 1
         && before <= after
         && after[|before|].Failed?
         && after[|before|].path == step.path
         && after[|before|].counted == !step.served.value.end.ownRateLimit
       else after == before
  }

  /** The dispatch loop's invariant: nothing has reached the caller yet. */
  ghost predicate Seeking(job: Job, first: seq<Event>, events: seq<Event>, steps: seq<Step>, last: Option<Error>) {
    && Dispatched(job, first, events, steps)
    && NothingYet(steps, |steps|)
    && last == LastError(steps, |steps|)
  }

  lemma {:induction false} StepStands(before: seq<Event>, after: seq<Event>, step: Step, next: nat)
    requires StepHolds(before, step, next) && before <= after
    ensures StepHolds(after, step, next)
  {
    OpenTillKeeps(before, after, step.path, step.seen);
    hide OpenTill;
  }

  lemma {:induction false} TakenHolds(before: seq<Event>, step: Step, after: seq<Event>)
    requires Taken(before, step, after)
    ensures before <= after && step.seen == |before| && StepHolds(after, step, |after|)
  {
    OpenTillKeeps(before, after, step.path, step.seen);
    hide OpenTill;
  }

  lemma {:induction false} Dispatches(job: Job, first: seq<Event>, before: seq<Event>, steps: seq<Step>, step: Step,
                                      after: seq<Event>)
    requires Dispatched(job, first, before, steps) && |steps| < |job.paths| && StepOf(job, |steps|, step)
    requires Taken(before, step, after)
    ensures Dispatched(job, first, after, steps + [step])
  {
    hide StepOf, StepHolds, Taken;
    TakenHolds(before, step, after);
    var all := steps + [step];
    forall i | 0 <= i < |all|
      ensures StepOf(job, i, all[i]) && StepHolds(after, all[i], NextSeen(after, all, i))
    {
      if i < |steps| {
        assert StepOf(job, i, steps[i]);
        StepStands(before, after, steps[i], NextSeen(before, steps, i));
      }
    }
  }

  /** One more step: the search goes on without anything sent, or it concludes with what was sent. */
  lemma {:induction false} TakeStep(job: Job, first: seq<Event>, before: seq<Event>, steps: seq<Step>,
                                    last: Option<Error>, step: Step, after: seq<Event>, ticks: nat)
    requires Seeking(job, first, before, steps, last) && |steps| < |job.paths| && StepOf(job, |steps|, step)
    requires Taken(before, step, after)
    ensures step.served.None? ==> Seeking(job, first, after, steps + [step], last)
    ensures step.served.Some? && step.served.value.chunks == [] && step.served.value.end.Broke? &&
            !step.served.value.end.permanent ==>
              Seeking(job, first, after, steps + [step], Some(step.served.value.end.error))
    ensures step.served.Some? && (step.served.value.chunks != [] || step.served.value.end.Done? ||
                                  step.served.value.end.permanent) ==>
              Concluded(job, first, after, steps + [step], step.served.value.chunks,
                        if step.served.value.end.Done? then Completed else Raised(step.served.value.end.error), ticks)
  {
    Dispatches(job, first, before, steps, step, after);
    LastErrorKeeps(steps, step, |steps|);
    hide Dispatched, StepOf, Taken;
  }

  lemma {:induction false} SeekingStarts(job: Job, first: seq<Event>)
    ensures Seeking(job, first, first, [], None)
  {
  }

  lemma {:induction false} GiveUp(job: Job, first: seq<Event>, events: seq<Event>, steps: seq<Step>,
                                  last: Option<Error>,
                                  ticks: nat)
    requires Seeking(job, first, events, steps, last)
    requires |steps| < |job.paths| ==> !TimeLeft(job, ticks - 1)
    ensures Concluded(job, first, events, steps, [],
                      if last.Some? then Raised(last.value)
                      else if |steps| < |job.paths| then DeadlineExceeded else AllOpen, ticks)
  {
  }

  lemma {:induction false} OpenTillKeeps(events: seq<Event>, events': seq<Event>, path: Path, n: nat)
    requires n <= |events| && events <= events'
    ensures OpenTill(events', path, n) == OpenTill(events, path, n)
  {
    if n == 0 {
    } else {
      OpenTillKeeps(events, events', path, n - 1);
    }
  }

  lemma {:induction false} LastErrorKeeps(steps: seq<Step>, step: Step, n: nat)
    requires n <= |steps|
    ensures LastError(steps + [step], n) == LastError(steps, n)
  {
    if n == 0 {
    } else {
      LastErrorKeeps(steps, step, n - 1);
    }
  }

  lemma {:induction false} AttemptIsServed(gemini: Gemini, i: nat, sdk: set<Thinking.Level>, calls: seq<Call>,
                                           sent: seq<Text>, outcome: Thinking.Outcome<()>)
    requires calls != [] && Thinking.Chain(sdk, calls)
    requires forall k :: 0 <= k < |calls| ==> Thinking.Answers(gemini.service(i), k, calls[k])
    requires Thinking.StreamResult(calls[|calls| - 1], gemini.note, sent, outcome)
    ensures CallsOf(gemini, i, calls)
    ensures var error := if outcome.Raised? then outcome.error else gemini.noText;
            Served(sent, if outcome.Returned? then Done else Break(gemini, error)) ==
            GeminiServed(gemini, calls[|calls| - 1])
  {
    forall k | 0 <= k < |calls| - 1 ensures calls[k].texts == [] && calls[k].reply.Bad? {
      assert Thinking.RetryOf(sdk, calls[k], calls[k + 1].config);
    }
  }

  class Dispatcher {
    var openUntil: map<Path, real>
    var failures: map<Path, nat>
    var ticks: nat                       // how often the monotonic clock was read
    const clock: nat -> real             // what each reading returns
    const backend: Thinking.GeminiBackend
    ghost var events: seq<Event>

    ghost predicate Valid()
      reads this
    {
      Tallies(events, openUntil, failures)
    }

    constructor (clock: nat -> real, backend: Thinking.GeminiBackend)
      ensures Valid() && events == [] && this.clock == clock && this.backend == backend && ticks == 0
    {
      this.clock, this.backend := clock, backend;
      openUntil, failures, ticks, events := map[], map[], 0, [];
    }

    method Now() returns (t: real)
      modifies `ticks
      ensures ticks == old(ticks) + 1 && t == clock(old(ticks))
    {
      t := clock(ticks);
      ticks := ticks + 1;
    }

    /** `_circuit_blocked`. */
    method Blocked(path: Path) returns (blocked: bool, at: real)
      requires Valid()
      modifies `ticks
      ensures Valid() && blocked == (at < OpenTill(events, path, |events|))
      ensures at == clock(old(ticks)) && ticks == old(ticks) + 1
    {
      at := Now();
      blocked := at < GetOr(openUntil, path, 0.0);
    }

    /** `_circuit_fail`. */
    method Fail(path: Path, ownRateLimit: bool) returns (ghost e: Event)
      requires Valid()
      modifies this
      ensures Valid() && events == old(events) + [e]
      ensures e.Failed? && e.path == path && e.counted == !ownRateLimit
      ensures e.tripped ==> e.at == clock(old(ticks))
    {
      ghost var before, openBefore, failuresBefore := events, openUntil, failures;
      e := Failed(path, 0.0, !ownRateLimit, false);
      if !ownRateLimit {
        failures := failures[path := GetOr(failures, path, 0) + 1];
        if failures[path] >= TRIP_AFTER {
          failures := failures - {path};
          var now := Now();
          openUntil := openUntil[path := now + COOLDOWN];
          e := Failed(path, now, true, true);
        }
      }
      events := events + [e];
      TallyStep(before, openBefore, failuresBefore, e, openUntil, failures);
    }

    /** `_circuit_clear`. */
    method Clear(path: Path)
      requires Valid()
      modifies `openUntil, `failures, `events
      ensures Valid() && events == old(events) + [Cleared(path)]
    {
      ghost var before, openBefore, failuresBefore := events, openUntil, failures;
      openUntil := openUntil - {path};
      failures := failures - {path};
      events := events + [Cleared(path)];
      TallyStep(before, openBefore, failuresBefore, Cleared(path), openUntil, failures);
    }

    /** The deadline check: is there too little time left to start an attempt? */
    method OutOfTime(job: Job) returns (out: bool)
      requires Valid() && job.clock == clock
      modifies `ticks
      ensures Valid() && out == !TimeLeft(job, ticks - 1)
    {
      if job.deadline.None? {
        return false;
      }
      var now := Now();
      out := job.deadline.value - now < job.minAttempt;
    }

    /** One attempt on a path whose circuit is not open: Gemini's own, or another backend's. */
    method Serve(job: Job, i: nat) returns (served: Served, ghost calls: seq<Call>)
      requires i < |job.paths|
      modifies backend
      ensures ServedBy(job, i, job.paths[i], calls, served)
    {
      var path, gemini := job.paths[i], job.gemini;
      var model := gemini.model(path);
      if model.None? {
        return job.others(i, path), [];
      }
      var sent, outcome;
      sent, outcome, calls :=
        backend.GenerateStream(model.value, gemini.thinks(path), gemini.config(path), gemini.service(i), gemini.note);
      var error := if outcome.Raised? then outcome.error else gemini.noText;
      served := Served(sent, if outcome.Returned? then Done else Break(gemini, error));
      AttemptIsServed(gemini, i, backend.sdk, calls, sent, outcome);
    }

    /** The body of the loop for one path: check its circuit, stream from it, tell the breaker. */
    method Attempt(job: Job, i: nat) returns (served: Option<Served>, ghost step: Step)
      requires Valid() && job.clock == clock && i < |job.paths| && TimeLeft(job, ticks - 1)
      modifies this, backend
      ensures Valid() && Taken(old(events), step, events) && StepOf(job, i, step) && step.served == served
    {
      ghost var before := events;
      var path := job.paths[i];
      var blocked, at := Blocked(path);
      step := Step(path, ticks - 1, at, |before|, None, []);
      if blocked {
        return None, step;
      }
      hide Tallies, ServedBy;
      var reply, calls := Serve(job, i);
      served := Some(reply);
      step := step.(served := served, calls := calls);
      if reply.end.Done? {
        Clear(path);
      } else if reply.chunks == [] && !reply.end.permanent {
        ghost var e := Fail(path, reply.end.ownRateLimit);
      }
    }

    /** `generate_stream_with_failover`, and `llm_generate_stream` when there is no deadline. */
    method Stream(job: Job) returns (sent: seq<Text>, outcome: Outcome, ghost steps: seq<Step>)
      requires Valid() && job.clock == clock
      modifies this, backend
      ensures Valid() && Concluded(job, old(events), events, steps, sent, outcome, ticks)
    {
      sent, steps := [], [];
      var lastError: Option<Error> := None;
      var anyAttempted := false;
      ghost var first := events;
      hide *;
      SeekingStarts(job, first);
      for i := 0 to |job.paths|
        invariant Valid() && |steps| == i && sent == []
        invariant Seeking(job, first, events, steps, lastError) && anyAttempted == lastError.Some?
      {
        var late := OutOfTime(job);
        if late {
          GiveUp(job, first, events, steps, lastError, ticks);
          outcome := if lastError.Some? then Raised(lastError.value) else DeadlineExceeded;
          return;
        }
        ghost var before := events;
        var served, step := Attempt(job, i);
        TakeStep(job, first, before, steps, lastError, step, events, ticks);
        steps := steps + [step];
        if served.None? {
          continue;
        }
        anyAttempted := true;
        sent := served.value.chunks;
        if served.value.end.Done? {
          outcome := Completed;
          return;
        }
        lastError := Some(served.value.end.error);
        if sent != [] || served.value.end.permanent {
          outcome := Raised(served.value.end.error);
          return;
        }
      }
      GiveUp(job, first, events, steps, lastError, ticks);
      outcome := if anyAttempted then Raised(lastError.value) else AllOpen;
    }
  }

  /** No path is attempted within a cooldown of its last trip, unless it succeeded in between. */
  lemma {:induction false} NoAttemptWhileOpen(job: Job, first: seq<Event>, events: seq<Event>, steps: seq<Step>,
                                              i: nat, k: nat)
    requires Dispatched(job, first, events, steps) && i < |steps| && steps[i].served.Some?
    requires k < steps[i].seen <= |events|
    requires events[k].Failed? && events[k].path == job.paths[i] && events[k].tripped
    requires forall m :: k < m < steps[i].seen && events[m].path == job.paths[i] ==>
             events[m].Failed? && !events[m].tripped
    ensures steps[i].at >= events[k].at + 60.0
  {
    assert StepHolds(events, steps[i], NextSeen(events, steps, i));
    TrippedStaysOpen(events, job.paths[i], k, steps[i].seen);
  }

  /**
   After which attempts a further path is looked at, time permitting: exactly those that failed
   before their first chunk with an error that is not permanent.  Any other ends the dispatch.
   */
  lemma {:induction false} GoesOnExactly(job: Job, first: seq<Event>, events: seq<Event>, steps: seq<Step>,
                                         sent: seq<Text>, outcome: Outcome, ticks: nat, i: nat)
    requires Concluded(job, first, events, steps, sent, outcome, ticks) && i < |steps| && steps[i].served.Some?
    ensures var served := steps[i].served.value;
            if served.chunks == [] && served.end.Broke? && !served.end.permanent then
              || i + 1 < |steps| || |steps| == |job.paths|
              || (job.deadline.Some? && (ticks > 0 ==> job.clock(ticks - 1) + job.minAttempt > job.deadline.value))
            else
              && i + 1 == |steps| && sent == served.chunks
              && outcome == if served.end.Done? then Completed else Raised(served.end.error)
  {
  }

  /** A path is looked at only while the deadline leaves an attempt its time. */
  lemma {:induction false} LooksInTime(job: Job, first: seq<Event>, events: seq<Event>, steps: seq<Step>, i: nat)
    requires Dispatched(job, first, events, steps) && i < |steps|
    ensures steps[i].path == job.paths[i] && steps[i].at == job.clock(steps[i].tick)
    ensures job.deadline.Some? ==>
              steps[i].tick > 0 && job.clock(steps[i].tick - 1) + job.minAttempt <= job.deadline.value
  {
    assert StepOf(job, i, steps[i]);
  }

  /** A path without a Gemini model streams what its own backend gives, in one go; any other asks Gemini. */
  lemma {:induction false} OthersStreamTheirOwn(job: Job, first: seq<Event>, events: seq<Event>, steps: seq<Step>,
                                                i: nat)
    requires Dispatched(job, first, events, steps) && i < |steps| && steps[i].served.Some?
    ensures steps[i].calls == [] <==> job.gemini.model(job.paths[i]).None?
    ensures steps[i].calls == [] ==> steps[i].served.value == job.others(i, job.paths[i])
  {
    assert StepOf(job, i, steps[i]);
  }

  /**
   What the breaker hears of each path looked at: nothing of one that was skipped, broke off in
   mid-answer or failed for good, a success when the answer ended, and otherwise one failure, which
   counts unless it was our own rate limit.
   */
  lemma {:induction false} BreakerHears(job: Job, first: seq<Event>, events: seq<Event>, steps: seq<Step>, i: nat)
    requires Dispatched(job, first, events, steps) && i < |steps|
    ensures first <= events && steps[0].seen == |first|
    ensures Hears(events, steps[i], if i + 1 < |steps| then steps[i + 1].seen else |events|)
  {
    assert StepHolds(events, steps[i], NextSeen(events, steps, i));
    StepIsHeard(events, steps[i], NextSeen(events, steps, i));
    hide StepOf, StepHolds, Hears;
  }

  ghost predicate Hears(events: seq<Event>, step: Step, next: nat) {
    && step.seen <= next <= |events|
    && var told := events[step.seen..next];
       if step.served.None? || step.served.value.end.Done? then
         told == if step.served.None? then [] else [Cleared(step.path)]
       else if step.served.value.chunks != [] || step.served.value.end.permanent then told == []
       else
         && |told| == 1 && told[0].Failed? && told[0].path == step.path
         && (told[0].counted <==> !step.served.value.end.ownRateLimit)
  }

  lemma {:induction false} StepIsHeard(events: seq<Event>, step: Step, next: nat)
    requires StepHolds(events, step, next)
    ensures Hears(events, step, next)
  {
    hide OpenTill;
  }

  /**
   How a dispatch without an answer ends: with the error of the last path that was tried, all later
   ones having been skipped, and with no error of a path only if all were skipped.
   */
  lemma {:induction false} EndsAs(job: Job, steps: seq<Step>, sent: seq<Text>, outcome: Outcome, ticks: nat)
    requires Answered(job, steps, sent, outcome, ticks) && |steps| <= |job.paths|
    ensures outcome == Completed <==> steps != [] && Finished(steps[|steps| - 1])
    ensures outcome == AllOpen <==> |steps| == |job.paths| && forall i :: 0 <= i < |steps| ==> Skipped(steps[i])
    ensures outcome == DeadlineExceeded <==> |steps| < |job.paths| && forall i :: 0 <= i < |steps| ==> Skipped(steps[i])
    ensures forall e :: outcome == Raised(e) <==>
              exists i :: 0 <= i < |steps| && BrokeWith(steps[i], e) &&
                          forall k :: i < k < |steps| ==> Skipped(steps[k])
  {
    if !Committed(steps) {
      LastErrorIs(steps, |steps|);
    }
    if Committed(steps) && outcome.Raised? {
      assert BrokeWith(steps[|steps| - 1], outcome.error);
    }
  }

  ghost predicate Finished(step: Step) {
    step.served.Some? && step.served.value.end.Done?
  }

  ghost predicate Skipped(step: Step) {
    step.served.None?
  }

  ghost predicate BrokeWith(step: Step, error: Error) {
    step.served.Some? && step.served.value.end.Broke? && step.served.value.end.error == error
  }

  lemma {:induction false} LastErrorIs(steps: seq<Step>, n: nat)
    requires n <= |steps| && forall i :: 0 <= i < n ==> Skipped(steps[i]) || !Finished(steps[i])
    ensures LastError(steps, n).None? ==> forall i :: 0 <= i < n ==> Skipped(steps[i])
    ensures LastError(steps, n).Some? ==>
              exists i :: 0 <= i < n && BrokeWith(steps[i], LastError(steps, n).value) &&
                          forall k :: i < k < n ==> Skipped(steps[k])
  {
    if n == 0 {
    } else {
      LastErrorIs(steps, n - 1);
      if steps[n - 1].served.Some? {
        assert BrokeWith(steps[n - 1], LastError(steps, n).value);
      }
    }
  }

  /** Everything the attempted backends streamed, in order. */
  ghost function AllText(steps: seq<Step>, n: nat): seq<Text>
    requires n <= |steps|
  {
    if n == 0 then []
    else AllText(steps, n - 1) + (if steps[n - 1].served.Some? then steps[n - 1].served.value.chunks else [])
  }

  /** No spliced answers, no lost text: the caller sees all that was streamed, and it came from one attempt. */
  lemma {:induction false} OneVoice(job: Job, steps: seq<Step>, sent: seq<Text>, outcome: Outcome, ticks: nat)
    requires Answered(job, steps, sent, outcome, ticks)
    ensures sent == AllText(steps, |steps|)
    ensures sent != [] ==>
              steps != [] && steps[|steps| - 1].served.Some? && sent == steps[|steps| - 1].served.value.chunks
  {
    if Committed(steps) {
      SilentSteps(steps, |steps| - 1);
    } else {
      SilentSteps(steps, |steps|);
    }
  }

  lemma {:induction false} SilentSteps(steps: seq<Step>, n: nat)
    requires n <= |steps| && NothingYet(steps, n)
    ensures AllText(steps, n) == []
  {
    if n == 0 {
    } else {
      SilentSteps(steps, n - 1);
    }
  }

  /** No upstream call of the first `n` steps streamed a text. */
  ghost predicate SilentCalls(steps: seq<Step>, n: nat)
    requires n <= |steps|
  {
    forall i, k :: 0 <= i < n && 0 <= k < |steps[i].calls| ==> steps[i].calls[k].texts == []
  }

  lemma {:induction false} SilentStepsAreSilent(job: Job, steps: seq<Step>, n: nat)
    requires n <= |steps| <= |job.paths| && NothingYet(steps, n)
    requires forall i :: 0 <= i < |steps| ==> StepOf(job, i, steps[i])
    ensures SilentCalls(steps, n)
  {
    forall i, k | 0 <= i < n && 0 <= k < |steps[i].calls| ensures steps[i].calls[k].texts == [] {
      assert StepOf(job, i, steps[i]);
      if k == |steps[i].calls| - 1 {
        assert steps[i].served.value.chunks == [];
      }
    }
  }

  /** What a Gemini attempt hands on, read off its last upstream call. */
  lemma {:induction false} GeminiHandsOn(gemini: Gemini, i: nat, calls: seq<Call>, served: Served)
    requires CallsOf(gemini, i, calls) && served == GeminiServed(gemini, calls[|calls| - 1])
    ensures var last, sent := calls[|calls| - 1], served.chunks;
            && (forall k :: 0 <= k < |calls| - 1 ==> calls[k].texts == [])
            && Thinking.Answers(gemini.service(i), |calls| - 1, last)
            && (sent == last.texts || (sent == last.texts + [gemini.note] && last.reply == Thinking.Good(true)))
            && (last.reply == Thinking.Good(true) && last.texts != [] ==> sent == last.texts + [gemini.note])
            && (served.end.Done? <==> last.reply.Good? && last.texts != [])
            && (served.end.Broke? ==>
                  var error := if last.reply.Bad? then last.reply.failure.error else gemini.noText;
                  served.end == Broke(error, gemini.permanent(error), gemini.ownRateLimit(error)))
  {
  }

  /**
   Through both layers, for every service, open circuits and refusals: of all upstream calls of
   a dispatch at most the last of its last step streamed a text.  If that is a call to Gemini,
   its texts are what the user sees, with the truncation note after a normal end only.
   */
  lemma {:induction false} OneUpstreamStream(job: Job, first: seq<Event>, events: seq<Event>, steps: seq<Step>,
                                             sent: seq<Text>, outcome: Outcome, ticks: nat)
    requires Concluded(job, first, events, steps, sent, outcome, ticks)
    ensures !Committed(steps) ==> sent == []
    ensures forall i, k :: 0 <= i < |steps| && 0 <= k < |steps[i].calls| && steps[i].calls[k].texts != [] ==>
              Committed(steps) && i == |steps| - 1 && k == |steps[i].calls| - 1
    ensures Committed(steps) && steps[|steps| - 1].calls != [] ==>
              var calls := steps[|steps| - 1].calls;
              var last := calls[|calls| - 1];
              && (forall k :: 0 <= k < |calls| - 1 ==> calls[k].texts == [])
              && Thinking.Answers(job.gemini.service(|steps| - 1), |calls| - 1, last)
              && (sent == last.texts || (sent == last.texts + [job.gemini.note] && last.reply == Thinking.Good(true)))
              && (last.reply == Thinking.Good(true) && last.texts != [] ==> sent == last.texts + [job.gemini.note])
              && (outcome == Completed <==> last.reply.Good? && last.texts != [])
  {
    OnlyTheLastSpoke(job, first, events, steps, sent, outcome, ticks);
    StopsAtTheLast(job, first, events, steps, sent, outcome, ticks);
    hide *;
    if Committed(steps) && steps[|steps| - 1].calls != [] {
      GeminiHandsOn(job.gemini, |steps| - 1, steps[|steps| - 1].calls, steps[|steps| - 1].served.value);
    }
  }

  lemma {:induction false} StopsAtTheLast(job: Job, first: seq<Event>, events: seq<Event>, steps: seq<Step>,
                                          sent: seq<Text>, outcome: Outcome, ticks: nat)
    requires Concluded(job, first, events, steps, sent, outcome, ticks)
    ensures !Committed(steps) ==> sent == []
    ensures Committed(steps) ==>
              var step := steps[|steps| - 1];
              && step.served.Some? && sent == step.served.value.chunks
              && outcome == (if step.served.value.end.Done? then Completed else Raised(step.served.value.end.error))
              && (step.calls != [] ==>
                    && CallsOf(job.gemini, |steps| - 1, step.calls)
                    && step.served.value == GeminiServed(job.gemini, step.calls[|step.calls| - 1]))
  {
    if Committed(steps) {
      assert StepOf(job, |steps| - 1, steps[|steps| - 1]);
    }
    hide Dispatched, CallsOf, GeminiServed;
  }

  lemma {:induction false} OnlyTheLastSpoke(job: Job, first: seq<Event>, events: seq<Event>, steps: seq<Step>,
                                            sent: seq<Text>, outcome: Outcome, ticks: nat)
    requires Concluded(job, first, events, steps, sent, outcome, ticks)
    ensures forall i, k :: 0 <= i < |steps| && 0 <= k < |steps[i].calls| && steps[i].calls[k].texts != [] ==>
              Committed(steps) && i == |steps| - 1 && k == |steps[i].calls| - 1
  {
    if Committed(steps) {
      var i := |steps| - 1;
      SilentStepsAreSilent(job, steps, i);
      assert StepOf(job, i, steps[i]);
      hide Dispatched, GeminiServed, Thinking.Answers, Committed;
    } else {
      SilentStepsAreSilent(job, steps, |steps|);
      hide Dispatched, Committed;
    }
  }
}
