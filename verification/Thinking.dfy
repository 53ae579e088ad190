/**
 The thinking-config ladder of providers/gemini.py: refusals of a thinking budget or level are
 learned and retried one step up, for at most `len(ladder) + 2` attempts.
 */
module Thinking {
  import opened Common

  type Model(==, !new)
  type Text(==, !new)
  type Error(==, !new)

  /** The levels of the ladder, lowest first, and any other name an SDK may know. */
  datatype Level = Minimal | Low | Medium | High | Other(name: int)

  /** A thinking config; `None` inside means the field is not set. */
  datatype Config = Config(level: Option<Level>, budget: Option<int>)

  /** What the code reads off an exception. */
  datatype Failure = Failure(error: Error, invalidArgument: bool, namesThinkingLevel: bool)

  const LOW_BUDGET_CEILING := 1024
  const ATTEMPTS: nat := 6     // len(_LEVEL_LADDER) + 2

  /** The next rung, or None at the top and off the ladder. */
  function NextRung(l: Level): Option<Level> {
    match l
    case Minimal => Some(Low)
    case Low => Some(Medium)
    case Medium => Some(High)
    case _ => None
  }

  function CurrentLevel(c: Option<Config>): Option<Level> {
    if c.Some? then c.value.level else None
  }

  /** `_escalate_level`: one rung up, or thinking dropped; None when no level is set. */
  function Escalate(sdk: set<Level>, c: Option<Config>): Option<Option<Config>> {
    if CurrentLevel(c).None? then None
    else
      var up := NextRung(CurrentLevel(c).value);
      if up.Some? && up.value in sdk then Some(Some(Config(up, None))) else Some(None)
  }

  function LevelForBudget(sdk: set<Level>, budget: Option<int>): Option<Level> {
    if budget.None? || budget.value < 0 then None
    else
      var l := if budget.value == 0 then Minimal else if budget.value <= LOW_BUDGET_CEILING then Low else Medium;
      if l in sdk then Some(l) else None
  }

  /** `_translate_thinking`: a refused budget as the equivalent level, or thinking dropped. */
  function Translate(sdk: set<Level>, c: Option<Config>): Option<Config> {
    if c.None? then c
    else
      var l := LevelForBudget(sdk, c.value.budget);
      if l.Some? then Some(Config(l, None)) else None
  }

  predicate HasBudget(c: Option<Config>) {
    c.Some? && c.value.budget.Some?
  }

  /** The failure is a refusal of this config's budget... */
  predicate RefusesBudget(c: Option<Config>, f: Failure) {
    HasBudget(c) && f.invalidArgument
  }

  /** ... or of its level. */
  predicate RefusesLevel(c: Option<Config>, f: Failure) {
    !RefusesBudget(c, f) && CurrentLevel(c).Some? && f.invalidArgument && f.namesThinkingLevel
  }

  /** The place of a level on the ladder; names off the ladder come last. */
  function Height(l: Level): nat {
    match l
    case Minimal => 1
    case Low => 2
    case Medium => 3
    case _ => 4
  }

  /**
   A translated budget asks for no more thinking than a larger one, for the least exactly when it
   means "off", and nothing is asked for exactly when the SDK lacks the level or the budget leaves
   it to the model.
   */
  lemma {:induction false} BudgetsTranslateInOrder(sdk: set<Level>, a: int, b: int)
    requires a <= b
    ensures var low, high := LevelForBudget(sdk, Some(a)), LevelForBudget(sdk, Some(b));
            && (low.Some? && high.Some? ==> Height(low.value) <= Height(high.value))
            && (low == Some(Minimal) <==> a == 0 && Minimal in sdk)
            && (low.Some? && high.Some? && a <= LOW_BUDGET_CEILING < b ==> Height(low.value) < Height(high.value) == 3)
            && (low.None? <==> a < 0 || (if a == 0 then Minimal !in sdk
                                         else if a <= LOW_BUDGET_CEILING then Low !in sdk else Medium !in sdk))
  {
  }

  /**
   A refused level is answered with the lowest higher one the SDK knows if that is the next rung;
   otherwise thinking is dropped, although higher rungs may be known.
   */
  lemma {:induction false} EscalationClimbsOneRung(sdk: set<Level>, c: Option<Config>, l: Level)
    requires CurrentLevel(c).Some? && !l.Other? && Height(l) > Height(CurrentLevel(c).value) && l in sdk
    requires forall m :: m in sdk && !m.Other? && Height(m) > Height(CurrentLevel(c).value) ==> Height(m) >= Height(l)
    ensures Escalate(sdk, c) == if Height(l) == Height(CurrentLevel(c).value) + 1 then Some(AtLevel(l)) else Some(None)
  {
  }

  function AtLevel(l: Level): Option<Config> {
    Some(Config(Some(l), None))
  }

  /** How many refusals a config can still collect before thinking is dropped. */
  ghost function Rungs(c: Option<Config>): nat {
    if c.None? then 0
    else if c.value.budget.Some? then 5
    else
      match c.value.level
      case None => 0
      case Some(Minimal) => 4
      case Some(Low) => 3
      case Some(Medium) => 2
      case Some(_) => 1
  }

  /** The config to retry with after a refusal. */
  ghost function Retry(sdk: set<Level>, c: Option<Config>, f: Failure): Option<Config>
    requires RefusesBudget(c, f) || RefusesLevel(c, f)
  {
    if RefusesBudget(c, f) then Translate(sdk, c) else Escalate(sdk, c).value
  }

  lemma {:induction false} RetryClimbs(sdk: set<Level>, c: Option<Config>, f: Failure)
    requires RefusesBudget(c, f) || RefusesLevel(c, f)
    ensures Rungs(Retry(sdk, c, f)) < Rungs(c) <= ATTEMPTS - 1
  {
  }

  datatype Reply<+T> = Good(value: T) | Bad(failure: Failure)

  datatype Outcome<+T> = Returned(value: T) | Raised(error: Error) | NoText | DidNotConverge

  /** One attempt: the config sent, the text chunks that came back before the end, and the end. */
  datatype Call<+T> = Call(config: Option<Config>, texts: seq<Text>, reply: Reply<T>)

  /** The attempt was refused for its thinking config, before any text came back. */
  ghost predicate Refused<T>(call: Call<T>) {
    && call.texts == [] && call.reply.Bad?
    && (RefusesBudget(call.config, call.reply.failure) || RefusesLevel(call.config, call.reply.failure))
  }

  /** `c` is what retries the refused attempt `call`. */
  ghost predicate RetryOf<T>(sdk: set<Level>, call: Call<T>, c: Option<Config>) {
    Refused(call) && c == Retry(sdk, call.config, call.reply.failure)
  }

  /** Every attempt but the last was refused, and the next one retried it. */
  ghost predicate Chain<T>(sdk: set<Level>, calls: seq<Call<T>>) {
    forall i {:trigger calls[i]} :: 0 < i < |calls| ==> RetryOf(sdk, calls[i - 1], calls[i].config)
  }

  /** The loop's invariant: `c` is what to send next, `first` what was sent first. */
  ghost predicate Climbing<T>(sdk: set<Level>, first: Option<Config>, calls: seq<Call<T>>, c: Option<Config>) {
    && Chain(sdk, calls)
    && |calls| + Rungs(c) <= Rungs(first) <= ATTEMPTS - 1
    && if calls == [] then c == first else calls[0].config == first && RetryOf(sdk, calls[|calls| - 1], c)
  }

  /** What a finished loop leaves behind. */
  ghost predicate Climbed<T>(sdk: set<Level>, first: Option<Config>, calls: seq<Call<T>>) {
    && Chain(sdk, calls)
    && 1 <= |calls| <= 1 + Rungs(first) <= ATTEMPTS
    && calls[0].config == first
    && !Refused(calls[|calls| - 1])
  }

  /**
   Which attempts are followed by another: exactly those that failed as an invalid argument before
   any text, with a budget set or with a level set that the error names.
   */
  lemma {:induction false} RetriedExactly<T>(sdk: set<Level>, first: Option<Config>, calls: seq<Call<T>>, i: nat)
    requires Climbed(sdk, first, calls) && i < |calls|
    ensures i + 1 < |calls| <==>
            && calls[i].texts == [] && calls[i].reply.Bad? && calls[i].reply.failure.invalidArgument
            && calls[i].config.Some?
            && (|| calls[i].config.value.budget.Some?
                || (calls[i].config.value.level.Some? && calls[i].reply.failure.namesThinkingLevel))
  {
    if i + 1 < |calls| {
      var j := i + 1;
      assert RetryOf(sdk, calls[j - 1], calls[j].config);
    }
  }

  /**
   What is sent after a refusal, by the budget or the level refused: no budget again, the next rung
   if the SDK knows it, and no thinking config where there is none.
   */
  lemma {:induction false} RetriedWith<T>(sdk: set<Level>, first: Option<Config>, calls: seq<Call<T>>, i: nat)
    requires Climbed(sdk, first, calls) && 0 < i < |calls|
    ensures |calls| <= 6 && calls[0].config == first && calls[i - 1].config.Some?
    ensures var was, now := calls[i - 1].config.value, calls[i].config;
            var up := if was.budget.Some? then
                        if was.budget.value < 0 then None
                        else if was.budget.value == 0 then Some(Minimal)
                        else if was.budget.value < 1025 then Some(Low)
                        else Some(Medium)
                      else if was.level == Some(Minimal) then Some(Low)
                      else if was.level == Some(Low) then Some(Medium)
                      else if was.level == Some(Medium) then Some(High)
                      else None;
            now == if up.Some? && up.value in sdk then Some(Config(up, None)) else None
  {
    assert RetryOf(sdk, calls[i - 1], calls[i].config);
  }

  /** The rungs in order. */
  function Ladder(): seq<Level> {
    [Minimal, Low, Medium, High]
  }

  /**
   Where the walk past the refused levels ends: on a higher rung exactly when all below it, from the
   first on, are refused, it is not, and the SDK knows it and all on the way.
   */
  lemma {:induction false} SkipsExactly(sdk: set<Level>, model: Model, refused: set<(Model, Level)>, i: nat, j: nat,
                                        budget: Option<int>)
    requires i < j < 4
    ensures var c := Some(Config(Some(Ladder()[i]), budget));
            var to := FirstAllowed(sdk, model, refused, c);
            && (to == c <==> (model, Ladder()[i]) !in refused)
            && (to == Some(Config(Some(Ladder()[j]), None)) && to != c <==>
                && (model, Ladder()[j]) !in refused
                && (forall k :: i <= k < j ==> (model, Ladder()[k]) in refused)
                && (forall k :: i < k <= j ==> Ladder()[k] in sdk))
            && (to == c || to == None || exists k :: i < k < 4 && to == Some(Config(Some(Ladder()[k]), None)))
    decreases 4 - i
  {
    if i < 2 {
      SkipsExactly(sdk, model, refused, i + 1, if j == i + 1 then 3 else j, None);
    }
  }

  lemma {:induction false} ClimbStarts<T>(sdk: set<Level>, first: Option<Config>)
    ensures Climbing<T>(sdk, first, [], first)
  {
  }

  lemma {:induction false} ClimbGoesOn<T>(sdk: set<Level>, first: Option<Config>, calls: seq<Call<T>>, call: Call<T>)
    requires Climbing(sdk, first, calls, call.config)
    ensures Refused(call) ==> Climbing(sdk, first, calls + [call], Retry(sdk, call.config, call.reply.failure))
    ensures !Refused(call) ==> Climbed(sdk, first, calls + [call])
  {
    if Refused(call) {
      RetryClimbs(sdk, call.config, call.reply.failure);
    }
    hide Refused, Retry, Rungs;
  }

  lemma {:induction false} NotRefused<T>(call: Call<T>)
    requires call.reply.Good? || call.texts != []
    ensures !Refused(call)
  {
  }

  lemma {:induction false} ClimbIsShort<T>(sdk: set<Level>, first: Option<Config>, calls: seq<Call<T>>,
                                           c: Option<Config>)
    requires Climbing(sdk, first, calls, c)
    ensures |calls| < ATTEMPTS
  {
  }

  /** What the first `n` attempts teach about a model. */
  ghost function Budgets<T>(model: Model, calls: seq<Call<T>>, n: nat): set<Model>
    requires n <= |calls|
  {
    if n == 0 then {}
    else
      var call := calls[n - 1];
      Budgets(model, calls, n - 1) +
      (if Refused(call) && RefusesBudget(call.config, call.reply.failure) then {model} else {})
  }

  ghost function Levels<T>(model: Model, calls: seq<Call<T>>, n: nat): set<(Model, Level)>
    requires n <= |calls|
  {
    if n == 0 then {}
    else
      var call := calls[n - 1];
      Levels(model, calls, n - 1) + (if Refused(call) && RefusesLevel(call.config, call.reply.failure)
                                     then {(model, CurrentLevel(call.config).value)} else {})
  }

  lemma {:induction false} LessonsSoFar<T>(model: Model, calls: seq<Call<T>>, call: Call<T>, n: nat)
    requires n <= |calls|
    ensures Budgets(model, calls + [call], n) == Budgets(model, calls, n)
    ensures Levels(model, calls + [call], n) == Levels(model, calls, n)
  {
    if n == 0 {
    } else {
      LessonsSoFar(model, calls, call, n - 1);
    }
  }

  /** How far up a config is; dropped thinking is past the top. */
  ghost function Altitude(c: Option<Config>): nat {
    if CurrentLevel(c).None? then 5 else Height(CurrentLevel(c).value)
  }

  /** The lowest config at or above `c` whose level this model is not known to refuse. */
  ghost function FirstAllowed(sdk: set<Level>, model: Model, refused: set<(Model, Level)>,
                              c: Option<Config>): Option<Config>
    decreases 5 - Altitude(c)
  {
    if CurrentLevel(c).None? || (model, CurrentLevel(c).value) !in refused then c
    else FirstAllowed(sdk, model, refused, Escalate(sdk, c).value)
  }

  /** The config a call starts with, given what is known about the model. */
  ghost function Prepared(sdk: set<Level>, model: Model, supportsThinking: bool, budgets: set<Model>,
                          levels: set<(Model, Level)>, c: Option<Config>): Option<Config>
  {
    if !supportsThinking then None
    else FirstAllowed(sdk, model, levels, if model in budgets && HasBudget(c) then Translate(sdk, c) else c)
  }

  /**
   What a call sends first: nothing for a model that does not think, a budget known to be refused as
   its level, and from there the walk past the refused levels, which only a refused level starts.
   */
  lemma {:induction false} SentFirst(sdk: set<Level>, model: Model, supportsThinking: bool, budgets: set<Model>,
                                     levels: set<(Model, Level)>, c: Option<Config>)
    ensures var to := Prepared(sdk, model, supportsThinking, budgets, levels, c);
            && (!supportsThinking || c.None? ==> to == None)
            && (supportsThinking && c.Some? ==>
                  var budget, was := c.value.budget, c.value.level;
                  if budget.Some? && model in budgets then
                    var l := if budget.value == 0 then Minimal else if budget.value < 1025 then Low else Medium;
                    if budget.value < 0 || l !in sdk then to == None
                    else to == FirstAllowed(sdk, model, levels, Some(Config(Some(l), None)))
                  else if was.Some? && (model, was.value) in levels then to == FirstAllowed(sdk, model, levels, c)
                  else to == c)
  {
  }

  /** What the attempts teach: the budget or the level each refused attempt was sent with, and no more. */
  lemma {:induction false} LearnedExactly<T>(model: Model, calls: seq<Call<T>>, n: nat)
    requires n <= |calls|
    ensures forall m :: m in Budgets(model, calls, n) <==>
              m == model && exists i :: 0 <= i < n && RefusedAs(calls[i], true)
    ensures forall m, l :: (m, l) in Levels(model, calls, n) <==>
              m == model &&
              exists i :: 0 <= i < n && RefusedAs(calls[i], false) && calls[i].config.value.level == Some(l)
  {
    if n == 0 {
    } else {
      LearnedExactly(model, calls, n - 1);
      var last := calls[n - 1];
      assert RefusedAs(last, true) <==> Refused(last) && RefusesBudget(last.config, last.reply.failure);
      assert RefusedAs(last, false) <==> Refused(last) && RefusesLevel(last.config, last.reply.failure);
      hide Refused, RefusesBudget, RefusesLevel;
    }
  }

  /** An invalid argument before any text, with a budget set, or with none but a level that the error names. */
  ghost predicate RefusedAs<T>(call: Call<T>, budget: bool) {
    && call.texts == [] && call.reply.Bad? && call.reply.failure.invalidArgument && call.config.Some?
    && call.config.value.budget.Some? == budget
    && (budget || (call.config.value.level.Some? && call.reply.failure.namesThinkingLevel))
  }

  class GeminiBackend {
    const sdk: set<Level>                    // the levels the installed SDK knows
    var budgetRejected: set<Model>
    var levelRejected: set<(Model, Level)>

    constructor (sdk: set<Level>)
      ensures this.sdk == sdk && budgetRejected == {} && levelRejected == {}
    {
      this.sdk, budgetRejected, levelRejected := sdk, {}, {};
    }

    /** `_skip_rejected_levels`: a level this model is known to refuse is never the first one sent. */
    method SkipRejectedLevels(model: Model, c0: Option<Config>) returns (c: Option<Config>)
      ensures c == FirstAllowed(sdk, model, levelRejected, c0)
      ensures CurrentLevel(c).Some? ==> (model, CurrentLevel(c).value) !in levelRejected
      ensures c == c0 || !HasBudget(c)
    {
      c := c0;
      for k := 0 to 4
        invariant CurrentLevel(c).Some? ==> k < Altitude(c)
        invariant FirstAllowed(sdk, model, levelRejected, c) == FirstAllowed(sdk, model, levelRejected, c0)
        invariant c == c0 || !HasBudget(c)
      {
        var name := CurrentLevel(c);
        if name.None? || (model, name.value) !in levelRejected {
          return;
        }
        c := Escalate(sdk, c).value;
      }
    }

    /** `_next_config`: learn the refusal and say what to retry with; None when the failure is not ours. */
    method NextConfig(model: Model, c: Option<Config>, f: Failure) returns (r: Option<Option<Config>>)
      modifies this
      ensures r == if RefusesBudget(c, f) || RefusesLevel(c, f) then Some(Retry(sdk, c, f)) else None
      ensures budgetRejected == old(budgetRejected) + (if RefusesBudget(c, f) then {model} else {})
      ensures levelRejected == old(levelRejected) +
                               (if RefusesLevel(c, f) then {(model, CurrentLevel(c).value)} else {})
    {
      if HasBudget(c) && f.invalidArgument {
        budgetRejected := budgetRejected + {model};
        return Some(Translate(sdk, c));
      }
      var name := CurrentLevel(c);
      if name.Some? && f.invalidArgument && f.namesThinkingLevel {
        levelRejected := levelRejected + {(model, name.value)};
        return Escalate(sdk, c);
      }
      return None;
    }

    /** `_prep_config`, once the context cache has had its say. */
    method PrepConfig(model: Model, supportsThinking: bool, c0: Option<Config>) returns (c: Option<Config>)
      ensures c == Prepared(sdk, model, supportsThinking, budgetRejected, levelRejected, c0)
      ensures supportsThinking && CurrentLevel(c).Some? ==> (model, CurrentLevel(c).value) !in levelRejected
      ensures model in budgetRejected ==> !HasBudget(c)
    {
      if !supportsThinking {
        return None;
      }
      c := c0;
      if model in budgetRejected && HasBudget(c) {
        c := Translate(sdk, c);
      }
      c := SkipRejectedLevels(model, c);
    }

    /** What `generate` and `generate_stream` share: after a failed call, retry or stop. */
    method Learn<T>(model: Model, ghost calls: seq<Call<T>>, c: Option<Config>, f: Failure,
                    ghost budgets: set<Model>, ghost levels: set<(Model, Level)>)
      returns (r: Option<Option<Config>>)
      requires Knows(model, calls, budgets, levels)
      modifies this
      ensures var call := Call(c, [], Bad(f));
              && Knows(model, calls + [call], budgets, levels)
              && r == if Refused(call) then Some(Retry(sdk, c, f)) else None
    {
      r := NextConfig(model, c, f);
      LessonsSoFar(model, calls, Call(c, [], Bad(f)), |calls|);
    }

    /** The backend has learned exactly what the calls taught, on top of what it knew. */
    ghost predicate Knows<T>(model: Model, calls: seq<Call<T>>, budgets: set<Model>, levels: set<(Model, Level)>)
      reads this
    {
      && budgetRejected == budgets + Budgets(model, calls, |calls|)
      && levelRejected == levels + Levels(model, calls, |calls|)
    }

    lemma {:induction false} KnowsExactly<T>(model: Model, calls: seq<Call<T>>, budgets: set<Model>,
                                             levels: set<(Model, Level)>)
      requires Knows(model, calls, budgets, levels)
      ensures forall m :: m in budgetRejected <==>
                m in budgets || (m == model && exists i :: 0 <= i < |calls| && RefusedAs(calls[i], true))
      ensures forall m, l :: (m, l) in levelRejected <==>
                || (m, l) in levels
                || (m == model && exists i :: 0 <= i < |calls| && RefusedAs(calls[i], false) &&
                                              calls[i].config.value.level == Some(l))
    {
      LearnedExactly(model, calls, |calls|);
      hide RefusedAs, Budgets, Levels;
    }

    lemma {:induction false} KnowsNoMore<T>(model: Model, calls: seq<Call<T>>, call: Call<T>, budgets: set<Model>,
                                            levels: set<(Model, Level)>)
      requires Knows(model, calls, budgets, levels) && !Refused(call)
      ensures Knows(model, calls + [call], budgets, levels)
    {
      LessonsSoFar(model, calls, call, |calls|);
    }

    /**
     `generate`: whatever the service answers to each attempt, the loop ends with its answer or
     its error, within one attempt more than the rungs left, so "did not converge" cannot happen.
     */
    method Generate<T>(model: Model, supportsThinking: bool, config: Option<Config>,
                       service: (nat, Option<Config>) -> Reply<T>)
      returns (outcome: Outcome<T>, ghost calls: seq<Call<T>>)
      modifies this
      ensures Climbed(sdk, Prepared(sdk, model, supportsThinking, old(budgetRejected), old(levelRejected), config),
              calls)
      ensures forall i :: 0 <= i < |calls| ==> calls[i] == Call(calls[i].config, [], service(i, calls[i].config))
      ensures Knows(model, calls, old(budgetRejected), old(levelRejected))
      ensures var reply := calls[|calls| - 1].reply;
              outcome == if reply.Good? then Returned(reply.value) else Raised(reply.failure.error)
    {
      calls := [];
      var c := PrepConfig(model, supportsThinking, config);
      ghost var first := c;
      ClimbStarts<T>(sdk, first);
      assert Knows(model, calls, old(budgetRejected), old(levelRejected));
      hide Rungs, Retry, Chain, Budgets, Levels, Prepared, Refused, Climbing, Climbed, Knows;
      for k := 0 to ATTEMPTS
        invariant |calls| == k && Climbing(sdk, first, calls, c)
        invariant Knows(model, calls, old(budgetRejected), old(levelRejected))
        invariant forall i :: 0 <= i < |calls| ==> calls[i] == Call(calls[i].config, [], service(i, calls[i].config))
      {
        var reply := service(k, c);
        ghost var before, call := calls, Call(c, [], reply);
        ClimbGoesOn(sdk, first, before, call);
        calls := calls + [call];
        if reply.Good? {
          NotRefused(call);
          KnowsNoMore(model, before, call, old(budgetRejected), old(levelRejected));
          return Returned(reply.value), calls;
        }
        var retry := Learn(model, before, c, reply.failure, old(budgetRejected), old(levelRejected));
        if retry.None? {
          return Raised(reply.failure.error), calls;
        }
        c := retry.value;
      }
      ClimbIsShort(sdk, first, calls, c);
      assert false;
      return DidNotConverge, calls;
    }

    /**
     `generate_stream`: the text sent on comes from one upstream stream, the last one opened; the
     truncation note follows only its normal end.  A refusal is retried only before any text.
     `service` gives, per attempt, the text chunks and then an end, `Good(true)` when the token
     limit cut the answer.
     */
    method GenerateStream(model: Model, supportsThinking: bool, config: Option<Config>,
                          service: (nat, Option<Config>) -> (seq<Text>, Reply<bool>), note: Text)
      returns (sent: seq<Text>, outcome: Outcome<()>, ghost calls: seq<Call<bool>>)
      modifies this
      ensures Climbed(sdk, Prepared(sdk, model, supportsThinking, old(budgetRejected), old(levelRejected), config),
              calls)
      ensures AllAnswer(service, calls)
      ensures Knows(model, calls, old(budgetRejected), old(levelRejected))
      ensures StreamResult(calls[|calls| - 1], note, sent, outcome)
    {
      sent, calls := [], [];
      var c := PrepConfig(model, supportsThinking, config);
      ghost var first := c;
      ClimbStarts<bool>(sdk, first);
      assert AllAnswer(service, calls);
      assert Knows(model, calls, old(budgetRejected), old(levelRejected));
      hide Rungs, Retry, Chain, Budgets, Levels, Prepared, Refused, Climbing, Climbed, Knows, AllAnswer;
      for k := 0 to ATTEMPTS
        invariant |calls| == k && sent == [] && Climbing(sdk, first, calls, c)
        invariant Knows(model, calls, old(budgetRejected), old(levelRejected))
        invariant AllAnswer(service, calls)
      {
        var answer := service(k, c);
        var texts, reply := answer.0, answer.1;
        ghost var before, call := calls, Call(c, texts, reply);
        ClimbGoesOn(sdk, first, before, call);
        OneMoreAnswer(service, before, call);
        sent := texts;
        calls := calls + [call];
        if reply.Good? {
          NotRefused(call);
          KnowsNoMore(model, before, call, old(budgetRejected), old(levelRejected));
          if sent != [] && reply.value {
            sent := sent + [note];
          }
          outcome := if sent == [] then NoText else Returned(());
          return;
        }
        if sent != [] {
          NotRefused(call);
          KnowsNoMore(model, before, call, old(budgetRejected), old(levelRejected));
          outcome := Raised(reply.failure.error);
          return;
        }
        var retry := Learn(model, before, c, reply.failure, old(budgetRejected), old(levelRejected));
        if retry.None? {
          outcome := Raised(reply.failure.error);
          return;
        }
        c := retry.value;
      }
      ClimbIsShort(sdk, first, calls, c);
      assert false;
      outcome := DidNotConverge;
    }
  }

  /** What reaches the caller, in terms of the last upstream stream alone. */
  ghost predicate StreamResult(last: Call<bool>, note: Text, sent: seq<Text>, outcome: Outcome<()>) {
    match last.reply
    case Good(truncated) =>
      if last.texts == [] then sent == [] && outcome == NoText
      else outcome == Returned(()) && sent == last.texts + (if truncated then [note] else [])
    case Bad(f) =>
      sent == last.texts && outcome == Raised(f.error) && !Refused(last)
  }

  /** Attempt `i` of a stream is what the service answers to its config. */
  ghost predicate Answers(service: (nat, Option<Config>) -> (seq<Text>, Reply<bool>), i: nat, call: Call<bool>) {
    call == Call(call.config, service(i, call.config).0, service(i, call.config).1)
  }

  ghost predicate AllAnswer(service: (nat, Option<Config>) -> (seq<Text>, Reply<bool>), calls: seq<Call<bool>>) {
    forall i :: 0 <= i < |calls| ==> Answers(service, i, calls[i])
  }

  lemma {:induction false} AnswersAre(service: (nat, Option<Config>) -> (seq<Text>, Reply<bool>),
                                      calls: seq<Call<bool>>)
    requires AllAnswer(service, calls)
    ensures forall i :: 0 <= i < |calls| ==> (calls[i].texts, calls[i].reply) == service(i, calls[i].config)
  {
  }

  lemma {:induction false} OneMoreAnswer(service: (nat, Option<Config>) -> (seq<Text>, Reply<bool>),
                                         calls: seq<Call<bool>>, call: Call<bool>)
    requires AllAnswer(service, calls) && Answers(service, |calls|, call)
    ensures AllAnswer(service, calls + [call])
  {
  }

  /** The bound is met: a zero budget refused, then every level in turn, takes all six attempts. */
  lemma {:induction false} SixAttemptsAreNeeded<T>(sdk: set<Level>, f: Failure)
    requires {Minimal, Low, Medium, High} <= sdk && f.invalidArgument && f.namesThinkingLevel
    ensures var zero := Some(Config(None, Some(0)));
            var configs := [zero, AtLevel(Minimal), AtLevel(Low), AtLevel(Medium), AtLevel(High), None];
            var calls: seq<Call<T>> := seq(ATTEMPTS, i requires 0 <= i < ATTEMPTS => Call(configs[i], [], Bad(f)));
            Climbed(sdk, zero, calls)
  {
    assert RefusesBudget(Some(Config(None, Some(0))), f);
    assert forall l :: l in {Minimal, Low, Medium, High} ==> RefusesLevel(AtLevel(l), f);
  }

  // ----- levels sent although they are known to be refused -----

  /** What follows a refusal of `c`, if it can be refused for its thinking at all. */
  function NextUp(sdk: set<Level>, c: Option<Config>): Option<Option<Config>> {
    if HasBudget(c) then Some(Translate(sdk, c)) else Escalate(sdk, c)
  }

  function LevelSet(c: Option<Config>): set<Level> {
    if CurrentLevel(c).Some? then {CurrentLevel(c).value} else {}
  }

  /** The levels that refusals can lead to from `c`. */
  ghost function Ahead(sdk: set<Level>, c: Option<Config>): set<Level>
    decreases Rungs(c)
  {
    var up := NextUp(sdk, c);
    if up.None? then {} else LevelSet(up.value) + Ahead(sdk, up.value)
  }

  /** A retry is sent with a level that was known to be refused when the call began. */
  ghost predicate Resends(known: set<Level>, calls: seq<Call<bool>>) {
    exists i :: 0 < i < |calls| && LevelSet(calls[i].config) * known != {}
  }

  lemma {:induction false} LevelsAreAhead(sdk: set<Level>, calls: seq<Call<bool>>, i: nat)
    requires Chain(sdk, calls) && i < |calls|
    ensures Ahead(sdk, calls[i].config) <= Ahead(sdk, calls[0].config)
    ensures i > 0 ==> LevelSet(calls[i].config) <= Ahead(sdk, calls[0].config)
  {
    if i == 0 {
    } else {
      LevelsAreAhead(sdk, calls, i - 1);
      assert RetryOf(sdk, calls[i - 1], calls[i].config);
      assert NextUp(sdk, calls[i - 1].config) == Some(calls[i].config);
    }
  }

  /** The calls a service makes that refuses whatever it can. */
  ghost function RefuseAll(sdk: set<Level>, c: Option<Config>, f: Failure): (calls: seq<Call<bool>>)
    ensures calls != [] && calls[0].config == c
    decreases Rungs(c)
  {
    var up := NextUp(sdk, c);
    [Call(c, [], Bad(f))] + if up.None? then [] else RefuseAll(sdk, up.value, f)
  }

  lemma {:induction false} RefuseAllClimbs(sdk: set<Level>, c: Option<Config>, f: Failure)
    requires f.invalidArgument && f.namesThinkingLevel
    ensures Climbed(sdk, c, RefuseAll(sdk, c, f))
    ensures forall l :: l in Ahead(sdk, c) ==>
              exists i :: 0 < i < |RefuseAll(sdk, c, f)| && l in LevelSet(RefuseAll(sdk, c, f)[i].config)
    decreases Rungs(c)
  {
    var up, calls := NextUp(sdk, c), RefuseAll(sdk, c, f);
    if up.None? {
    } else {
      var rest := RefuseAll(sdk, up.value, f);
      RefuseAllClimbs(sdk, up.value, f);
      RetryClimbs(sdk, c, f);
      assert RetryOf(sdk, calls[0], up.value);
      assert forall i :: 0 < i < |calls| ==> calls[i] == rest[i - 1];
      forall i | 0 < i < |calls| ensures RetryOf(sdk, calls[i - 1], calls[i].config) {
        if i > 1 {
          assert RetryOf(sdk, rest[i - 2], rest[i - 1].config);
        }
      }
      forall l | l in Ahead(sdk, c) ensures exists i :: 0 < i < |calls| && l in LevelSet(calls[i].config) {
        if l in LevelSet(up.value) {
          assert l in LevelSet(calls[1].config);
        } else {
          assert l in Ahead(sdk, up.value);
          var i :| 0 < i < |rest| && l in LevelSet(rest[i].config);
          assert l in LevelSet(calls[i + 1].config);
        }
      }
    }
  }

  /** The attempts of `generate` from its first config on, as a service answers them. */
  ghost predicate Made(sdk: set<Level>, first: Option<Config>, service: (nat, Option<Config>) -> Reply<bool>,
                       calls: seq<Call<bool>>)
  {
    && Climbed(sdk, first, calls)
    && forall i :: 0 <= i < |calls| ==> calls[i] == Call(calls[i].config, [], service(i, calls[i].config))
  }

  /** Every attempt got the service's answer to its own config, and none was ever skipped. */
  lemma {:induction false} AttemptsAreAnswered(sdk: set<Level>, first: Option<Config>,
                                               service: (nat, Option<Config>) -> Reply<bool>, calls: seq<Call<bool>>)
    requires Made(sdk, first, service, calls)
    ensures calls != [] && calls[0].config == first
    ensures forall i :: 0 <= i < |calls| ==> calls[i].texts == [] && calls[i].reply == service(i, calls[i].config)
  {
  }

  lemma {:induction false} ResentOnlyAhead(sdk: set<Level>, first: Option<Config>, known: set<Level>,
                                           calls: seq<Call<bool>>)
    requires Climbed(sdk, first, calls) && Resends(known, calls)
    ensures Ahead(sdk, first) * known != {}
  {
    var i :| 0 < i < |calls| && LevelSet(calls[i].config) * known != {};
    LevelsAreAhead(sdk, calls, i);
    var l :| l in LevelSet(calls[i].config) * known;
    assert l in Ahead(sdk, first) * known;
  }

  lemma {:induction false} RefuseAllResends(sdk: set<Level>, first: Option<Config>, known: set<Level>, f: Failure)
    requires f.invalidArgument && f.namesThinkingLevel && Ahead(sdk, first) * known != {}
    ensures Resends(known, RefuseAll(sdk, first, f))
  {
    var l :| l in Ahead(sdk, first) * known;
    RefuseAllClimbs(sdk, first, f);
    var i :| 0 < i < |RefuseAll(sdk, first, f)| && l in LevelSet(RefuseAll(sdk, first, f)[i].config);
    assert l in LevelSet(RefuseAll(sdk, first, f)[i].config) * known;
  }

  /** A service that always fails so is answered with all the attempts there are. */
  lemma {:induction false} RefusedThroughout(sdk: set<Level>, calls: seq<Call<bool>>, k: nat, f: Failure)
    requires f.invalidArgument && f.namesThinkingLevel && Chain(sdk, calls)
    requires k < |calls| && !Refused(calls[|calls| - 1])
    requires forall i :: 0 <= i < |calls| ==> calls[i] == Call(calls[i].config, [], Bad(f))
    ensures calls[k..] == RefuseAll(sdk, calls[k].config, f)
    decreases |calls| - k
  {
    if k == |calls| - 1 {
      assert calls[k..] == [calls[k]];
    } else {
      assert RetryOf(sdk, calls[k], calls[k + 1].config);
      RefusedThroughout(sdk, calls, k + 1, f);
      assert calls[k..] == [calls[k]] + calls[k + 1..];
    }
  }

  /**
   Only the first config of a call is looked up, not its retries: some service makes a call send a
   level that is known to be refused exactly when such a level lies ahead of its first config.
   */
  lemma {:induction false} ResentExactly(sdk: set<Level>, first: Option<Config>, known: set<Level>, f: Failure)
    requires f.invalidArgument && f.namesThinkingLevel
    ensures (exists service, calls :: Made(sdk, first, service, calls) && Resends(known, calls)) <==>
            Ahead(sdk, first) * known != {}
  {
    if service, calls :| Made(sdk, first, service, calls) && Resends(known, calls) {
      ResentOnlyAhead(sdk, first, known, calls);
    }
    if Ahead(sdk, first) * known != {} {
      RefuseAllClimbs(sdk, first, f);
      RefuseAllResends(sdk, first, known, f);
      AllRefused(sdk, first, f);
      assert Made(sdk, first, (i, c) => Bad(f), RefuseAll(sdk, first, f));
    }
  }

  lemma {:induction false} AllRefused(sdk: set<Level>, c: Option<Config>, f: Failure)
    ensures var calls := RefuseAll(sdk, c, f);
            forall i :: 0 <= i < |calls| ==> calls[i] == Call(calls[i].config, [], Bad(f))
    decreases Rungs(c)
  {
    var up := NextUp(sdk, c);
    if up.None? {
    } else {
      AllRefused(sdk, up.value, f);
    }
  }

  /** The levels a backend knows a model to refuse. */
  function KnownFor(model: Model, levels: set<(Model, Level)>): (known: set<Level>)
    ensures forall l :: l in known <==> (model, l) in levels
  {
    set x | x in levels && x.0 == model :: x.1
  }

  /**
   The same on a run of the backend: whatever the service, it sends again no known level but one
   that lies ahead, and against a service that refuses everything it does send one if there is one.
   */
  method GenerateKnowing(backend: GeminiBackend, model: Model, supportsThinking: bool, config: Option<Config>,
                         service: (nat, Option<Config>) -> Reply<bool>, f: Failure)
    returns (outcome: Outcome<bool>, ghost calls: seq<Call<bool>>)
    modifies backend
    ensures var known := KnownFor(model, old(backend.levelRejected));
            var first := Prepared(backend.sdk, model, supportsThinking, old(backend.budgetRejected),
                                  old(backend.levelRejected), config);
            && Made(backend.sdk, first, service, calls)
            && (forall i :: 0 <= i < |calls| ==> calls[i] == Call(calls[i].config, [], service(i, calls[i].config)))
            && (Resends(known, calls) ==> Ahead(backend.sdk, first) * known != {})
            && (f.invalidArgument && f.namesThinkingLevel && (forall i, c :: service(i, c) == Bad(f)) ==>
                  (Resends(known, calls) <==> Ahead(backend.sdk, first) * known != {}))
  {
    ghost var known := KnownFor(model, backend.levelRejected);
    ghost var first := Prepared(backend.sdk, model, supportsThinking, backend.budgetRejected, backend.levelRejected,
                                config);
    hide Prepared, KnownFor, Resends, Ahead;
    outcome, calls := backend.Generate(model, supportsThinking, config, service);
    if Resends(known, calls) {
      ResentOnlyAhead(backend.sdk, first, known, calls);
    }
    if f.invalidArgument && f.namesThinkingLevel && forall i, c :: service(i, c) == Bad(f) {
      RefusedThroughout(backend.sdk, calls, 0, f);
      assert calls[0..] == calls;
      if Ahead(backend.sdk, first) * known != {} {
        RefuseAllResends(backend.sdk, first, known, f);
      }
    }
  }

  /** The smallest case: Low is known to be refused, Minimal is asked for and refused, and Low is sent again. */
  lemma {:induction false} KnownLevelIsResent(sdk: set<Level>, model: Model, f: Failure)
    requires {Low, Medium} <= sdk && f.invalidArgument && f.namesThinkingLevel
    ensures var first := Prepared(sdk, model, true, {}, {(model, Low)}, AtLevel(Minimal));
            var calls :=
              [Call(first, [], Bad(f)), Call(AtLevel(Low), [], Bad(f)), Call(AtLevel(Medium), [], Good(false))];
            first == AtLevel(Minimal) && Climbed(sdk, first, calls) && Resends({Low}, calls)
  {
    var first := AtLevel(Minimal);
    var calls: seq<Call<bool>> :=
      [Call(first, [], Bad(f)), Call(AtLevel(Low), [], Bad(f)), Call(AtLevel(Medium), [], Good(false))];
    assert Refused(calls[0]) && Refused(calls[1]);
    assert Low in LevelSet(calls[1].config) * {Low};
  }
}
