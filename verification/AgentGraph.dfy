/**
 The agent loop of agent/graph.py: six nodes, the decision cascade of
 agent/nodes/reflexion_evaluator.py, and what every run of the graph keeps.
 */
module AgentGraph {
  import opened Common
  import opened Interleave
  import ToolExecutor

  type Glyph(==, !new)
  type Answer = seq<Glyph>                 // an empty answer is falsy
  type Aspect(==, !new)

  const MAX_REFLEXION: nat := 3

  /** The action a model names: one of the four, any other plain value, or an array or object, which is no key. */
  datatype Action = Accept | Regenerate | RetrieveMore | Reformulate | Unknown(name: int) | Unhashable

  /**
   What a model gives for the missing aspects: strings (an array of them, one string, or the keys
   of an object), an array with something else in it, null, or a number or boolean.
   */
  datatype Missing = Aspects(items: seq<Aspect>) | Mixed | Null | Scalar(truthy: bool)

  datatype Feedback = Feedback(faithfulness: real, completeness: real, action: Action, missing: Missing)

  /** The six nodes, and the two ends of a run: returned, or left by an exception. */
  datatype Node =
    | QueryPlanner | ToolSelector | ToolExecutorNode | AnswerGenerator | ReflexionEvaluator | Finalizer | End | Crashed

  datatype State = State(contexts: seq<Passage>, draft: Option<Answer>, final: Option<Answer>, count: nat,
                         history: seq<Feedback>, start: Option<real>)

  /**
   config.py's knobs, and the texts put around an answer: a rule and a caveat after it, an
   abstention around it, an apology in its place.
   */
  datatype Knobs = Knobs(timeout: real, evalReserve: real, reflexionBudget: real, faithfulnessAccept: real,
                         completenessAccept: real, confidence: bool, abstainFloor: real,
                         rule: Glyph, caveat: seq<Aspect> -> Answer, abstention: (Answer, Missing) -> Answer,
                         apology: Answer, strip: Answer -> Answer)

  /** What the evaluator's model said, if it could be asked and parsed. */
  datatype Verdict = Verdict(completeness: real, action: Option<Action>, missing: Missing)

  /** One evaluation's environment: two clock readings, the claims found grounded and in all, the verdict. */
  datatype Evaluation = Evaluation(before: real, after: real, claims: Option<(nat, nat)>, verdict: Option<Verdict>)

  predicate Falsy(a: Option<Answer>) {
    a.None? || a.value == []
  }

  /** No claims means nothing to hallucinate; a crash of the check means the worst. */
  function Faithfulness(claims: Option<(nat, nat)>): real {
    if claims.None? then 0.0
    else if claims.value.1 == 0 then 1.0
    else claims.value.0 as real / claims.value.1 as real
  }

  /** k grounded claims of n score k / n. */
  lemma {:induction false} FaithfulnessIsTheShare(k: nat, n: nat)
    requires n > 0
    ensures Faithfulness(Some((k, n))) * n as real == k as real
    ensures Faithfulness(Some((0, 0))) == 1.0 && Faithfulness(None) == 0.0
  {
  }

  function Judge(knobs: Knobs, e: Evaluation): Feedback {
    var faith := Faithfulness(e.claims);
    match e.verdict
    case None =>
      Feedback(faith, 0.5, if faith >= knobs.faithfulnessAccept then Regenerate else RetrieveMore, Aspects([]))
    case Some(v) =>
      var asked := if v.action.Some? then v.action.value else RetrieveMore;
      var noClaims := e.claims.None? || e.claims.value.1 == 0;
      var action := if !noClaims && faith >= knobs.faithfulnessAccept && v.completeness >= knobs.completenessAccept
                    then Accept else asked;
      Feedback(faith, v.completeness, action, v.missing)
  }

  /**
   The action is the model's own, and retrieving more where it names none, except that a draft with
   k of n > 0 claims grounded, k at least the accepted share of n, is accepted if it is complete enough.
   Without a reply that could be parsed, completeness counts as one half, and nothing is accepted.
   */
  lemma {:induction false} JudgedExactly(knobs: Knobs, e: Evaluation)
    ensures var f := Judge(knobs, e);
            match e.verdict
            case None =>
              && f.completeness == 0.5 && f.missing == Aspects([]) && f.action in {Regenerate, RetrieveMore}
              && (f.action == RetrieveMore <==> f.faithfulness < knobs.faithfulnessAccept)
            case Some(v) =>
              && f.completeness == v.completeness && f.missing == v.missing
              && (f.action == Accept <==>
                  || v.action == Some(Accept)
                  || (&& e.claims.Some? && e.claims.value.1 > 0
                      && e.claims.value.0 as real >= knobs.faithfulnessAccept * e.claims.value.1 as real
                      && v.completeness >= knobs.completenessAccept))
              && (f.action == Accept || (v.action.None? && f.action == RetrieveMore) || v.action == Some(f.action))
    ensures Judge(knobs, e).faithfulness == Faithfulness(e.claims)
  {
    if e.claims.Some? && e.claims.value.1 > 0 {
      var k, n, a := e.claims.value.0 as real, e.claims.value.1 as real, knobs.faithfulnessAccept;
      FaithfulnessIsTheShare(e.claims.value.0, e.claims.value.1);
      var q := Faithfulness(e.claims);
      assert q * n - a * n == (q - a) * n;
      if q >= a {
        assert (q - a) * n >= 0.0;
      } else {
        assert (q - a) * n < 0.0;
      }
    }
  }

  /** A second or later evaluation that is no more than 0.05 better than the one before. */
  predicate Stuck(s: State, completeness: real) {
    s.count >= 1 && s.history != [] && completeness <= s.history[|s.history| - 1].completeness + 0.05
  }

  /** The draft is finalised without an evaluation: the counter or the clock says so. */
  predicate Skips(knobs: Knobs, s: State, before: real) {
    s.count >= MAX_REFLEXION || TooLate(knobs, s, before)
  }

  predicate TooLate(knobs: Knobs, s: State, before: real) {
    s.start.Some? && !Falsy(s.draft) &&
    (knobs.timeout - (before - s.start.value) < knobs.evalReserve ||
     (s.count >= 1 && before - s.start.value > knobs.reflexionBudget))
  }

  function Draft(s: State): Answer {
    if s.draft.Some? then s.draft.value else []
  }

  predicate Unfaithful(knobs: Knobs, f: Feedback) {
    f.faithfulness < knobs.faithfulnessAccept
  }

  /** An answer with the note that it could not be verified. */
  function WithCaveat(knobs: Knobs, answer: Answer, items: seq<Aspect>): Answer {
    answer + [knobs.rule] + knobs.caveat(items)
  }

  /** The budget is spent once the verdict is in. */
  predicate LateAfter(knobs: Knobs, s: State, e: Evaluation) {
    s.start.Some? && e.after - s.start.value > knobs.reflexionBudget
  }

  /** `reflexion_evaluator_node`, when it returns. */
  function Evaluate(knobs: Knobs, s: State, e: Evaluation): State {
    if s.count >= MAX_REFLEXION then s.(final := s.draft)
    else if TooLate(knobs, s, e.before) then s.(final := s.draft, count := s.count + 1)
    else
      var answer, f := Draft(s), Judge(knobs, e);
      var judged := s.(count := s.count + 1, history := s.history + [f]);
      if f.action != Accept && Stuck(s, f.completeness) then
        var withCaveat := Unfaithful(knobs, f) && f.missing.Aspects?;
        judged.(final := Some(if withCaveat then WithCaveat(knobs, answer, f.missing.items) else answer))
      else if f.action == Accept then judged.(final := Some(answer))
      else if LateAfter(knobs, s, e) then judged.(final := Some(answer))
      else judged
  }

  /** A draft that is evaluated, not accepted, unfaithful and no better than the one before gets its caveat. */
  predicate Caveated(knobs: Knobs, s: State, e: Evaluation) {
    var f := Judge(knobs, e);
    && !Skips(knobs, s, e.before)
    && f.action != Accept && Stuck(s, f.completeness) && Unfaithful(knobs, f)
  }

  /** The caveat joins the missing aspects, which must be strings. */
  predicate CannotJoin(knobs: Knobs, s: State, e: Evaluation) {
    Caveated(knobs, s, e) && !Judge(knobs, e).missing.Aspects?
  }

  /** The router asks the last verdict where to go. */
  predicate SentBack(s: State) {
    s.count < MAX_REFLEXION && Falsy(s.final) && s.history != []
  }

  /** `_route_reflexion`, when it returns. */
  function Route(s: State): Node {
    if !SentBack(s) then Finalizer
    else
      match s.history[|s.history| - 1].action
      case Regenerate => AnswerGenerator
      case RetrieveMore => ToolSelector
      case Reformulate => QueryPlanner
      case _ => Finalizer
  }

  /** A verdict that is sent back must name an action that can be looked up. */
  predicate CannotRoute(s: State) {
    SentBack(s) && s.history[|s.history| - 1].action.Unhashable?
  }

  /** The finalizer abstains when the last verdict, on whichever draft, found it faithful but incomplete. */
  predicate Abstains(knobs: Knobs, s: State) {
    knobs.confidence && s.history != [] &&
    var f := s.history[|s.history| - 1];
    !Unfaithful(knobs, f) && f.completeness < knobs.abstainFloor
  }

  /** An abstention lists the gaps, which a number or `true` cannot give. */
  predicate CannotListGaps(knobs: Knobs, s: State) {
    Abstains(knobs, s) && s.history[|s.history| - 1].missing == Scalar(true)
  }

  /** What the finalizer starts from. */
  function Chosen(knobs: Knobs, s: State): Answer {
    if !Falsy(s.final) then s.final.value else if !Falsy(s.draft) then s.draft.value else knobs.apology
  }

  /** `finalizer_node`, when it returns: the text that ships. */
  function Shipped(knobs: Knobs, s: State): Answer {
    var answer := knobs.strip(Chosen(knobs, s));
    if Abstains(knobs, s) then knobs.abstention(answer, s.history[|s.history| - 1].missing) else answer
  }

  /** What the tool executor promises about the passages it hands back. */
  ghost predicate Gathers(before: seq<Passage>, after: seq<Passage>) {
    && (ToolExecutor.NoRepeats(before) ==> ToolExecutor.NoRepeats(after))
    && multiset(before) <= multiset(after)
  }

  /** A point of a run: the node about to be executed, the state it will see, and what an evaluation would meet. */
  datatype Point = Point(node: Node, state: State, e: Evaluation)

  /** One node is executed; the models, the tools and the clock may do anything. */
  ghost predicate Step(knobs: Knobs, a: Point, b: Point) {
    var s, t := a.state, b.state;
    match a.node
    case QueryPlanner =>
      b.node == ToolSelector && t == if s.count == 0 then s.(contexts := []) else s
    case ToolSelector =>
      b.node == ToolExecutorNode && t == s
    case ToolExecutorNode =>
      b.node == AnswerGenerator && t == s.(contexts := t.contexts) && Gathers(s.contexts, t.contexts)
    case AnswerGenerator =>
      b.node == ReflexionEvaluator && t.draft.Some? && t == s.(draft := t.draft)
    case ReflexionEvaluator =>
      if CannotJoin(knobs, s, a.e) then b.node == Crashed && t == s
      else t == Evaluate(knobs, s, a.e) && b.node == if CannotRoute(t) then Crashed else Route(t)
    case Finalizer =>
      if CannotListGaps(knobs, s) then b.node == Crashed && t == s
      else b.node == End && t == s.(final := Some(Shipped(knobs, s)))
    case _ => false
  }

  /** The replies that the code does not guard against, at the point where each does harm. */
  ghost predicate Derails(knobs: Knobs, p: Point) {
    || (p.node == ReflexionEvaluator && CannotJoin(knobs, p.state, p.e))
    || (p.node == ReflexionEvaluator && CannotRoute(Evaluate(knobs, p.state, p.e)))
    || (p.node == Finalizer && CannotListGaps(knobs, p.state))
  }

  predicate Over(node: Node) {
    node == End || node == Crashed
  }

  ghost predicate IsStart(p: Point) {
    p.node == QueryPlanner && p.state == State([], None, None, 0, [], p.state.start)
  }

  ghost predicate StepAt(knobs: Knobs, run: seq<Point>, i: nat)
    requires 0 < i < |run|
  {
    Step(knobs, run[i - 1], run[i])
  }

  ghost predicate Chain(knobs: Knobs, run: seq<Point>) {
    forall i :: 0 < i < |run| ==> StepAt(knobs, run, i)
  }

  ghost predicate IsRun(knobs: Knobs, run: seq<Point>) {
    run != [] && IsStart(run[0]) && Chain(knobs, run)
  }

  /** An upper bound on the node executions left, by node and evaluations done. */
  ghost function Fuel(node: Node, count: nat): nat {
    var rounds := Monus(MAX_REFLEXION, count + 1);
    match node
    case QueryPlanner => 6 + 5 * rounds
    case ToolSelector => 5 + 5 * rounds
    case ToolExecutorNode => 4 + 5 * rounds
    case AnswerGenerator => 3 + 5 * rounds
    case ReflexionEvaluator => 2 + 5 * rounds
    case Finalizer => 1
    case _ => 0
  }

  /** Evaluating always counts, while there is something left to count. */
  lemma {:induction false} EvaluationCounts(knobs: Knobs, s: State, e: Evaluation)
    ensures Evaluate(knobs, s, e).count == if s.count >= MAX_REFLEXION then s.count else s.count + 1
    ensures Evaluate(knobs, s, e).contexts == s.contexts && Evaluate(knobs, s, e).draft == s.draft
    ensures Evaluate(knobs, s, e).start == s.start
    ensures Evaluate(knobs, s, e).history ==
            if Skips(knobs, s, e.before) then s.history else s.history + [Judge(knobs, e)]
  {
    hide Judge;
  }

  lemma {:induction false} EveryStepBurnsFuel(knobs: Knobs, a: Point, b: Point)
    requires Step(knobs, a, b)
    ensures Fuel(b.node, b.state.count) < Fuel(a.node, a.state.count)
  {
    if a.node == ReflexionEvaluator {
      EvaluationCounts(knobs, a.state, a.e);
      hide Evaluate, CannotJoin;
    }
  }

  ghost function FuelAt(p: Point): nat {
    Fuel(p.node, p.state.count)
  }

  lemma {:induction false} FuelAtStart(knobs: Knobs, run: seq<Point>)
    requires IsRun(knobs, run) && run != []
    ensures FuelAt(run[0]) == 16
  {
  }

  lemma {:induction false} FuelFalls(knobs: Knobs, run: seq<Point>, i: nat)
    requires IsRun(knobs, run) && 0 < i < |run|
    ensures FuelAt(run[i]) < FuelAt(run[i - 1])
  {
    hide IsRun, Step, Fuel;
    StepOfRun(knobs, run, i);
    EveryStepBurnsFuel(knobs, run[i - 1], run[i]);
  }

  lemma {:induction false} FuelSpent(knobs: Knobs, run: seq<Point>, i: nat)
    requires IsRun(knobs, run) && i < |run|
    ensures i + FuelAt(run[i]) <= 16
  {
    hide IsRun, FuelAt;
    if i == 0 {
      FuelAtStart(knobs, run);
    } else {
      FuelSpent(knobs, run, i - 1);
      FuelFalls(knobs, run, i);
    }
  }

  /** The nodes executed before point `i` that were evaluations. */
  ghost function Evaluations(run: seq<Point>, i: nat): nat
    requires i <= |run|
  {
    if i == 0 then 0
    else if run[i - 1].node == ReflexionEvaluator then Evaluations(run, i - 1) + 1
    else Evaluations(run, i - 1)
  }

  lemma {:induction false} CountIsEvaluations(knobs: Knobs, run: seq<Point>, i: nat)
    requires IsRun(knobs, run) && i < |run|
    ensures run[i].node != Crashed ==> run[i].state.count == Evaluations(run, i)
    ensures Evaluations(run, i) <= MAX_REFLEXION
    ensures run[i].node !in {Finalizer, End, Crashed} ==> run[i].state.count < MAX_REFLEXION
    ensures run[i].node == QueryPlanner && i > 0 ==> run[i].state.count > 0
  {
    if i == 0 {
    } else {
      CountIsEvaluations(knobs, run, i - 1);
      StepOfRun(knobs, run, i);
      if run[i - 1].node == ReflexionEvaluator {
        EvaluationCounts(knobs, run[i - 1].state, run[i - 1].e);
        hide Evaluate, CannotJoin;
      }
    }
  }

  /** No node is ever stuck: whatever has happened, there is a next point unless the run is over. */
  lemma {:induction false} AlwaysANextStep(knobs: Knobs, a: Point) returns (b: Point)
    requires !Over(a.node)
    ensures Step(knobs, a, b)
  {
    var s, e := a.state, a.e;
    match a.node {
      case QueryPlanner => b := Point(ToolSelector, if s.count == 0 then s.(contexts := []) else s, e);
      case ToolSelector => b := Point(ToolExecutorNode, s, e);
      case ToolExecutorNode => b := Point(AnswerGenerator, s, e);
      case AnswerGenerator => b := Point(ReflexionEvaluator, s.(draft := Some([])), e);
      case ReflexionEvaluator =>
        var t := Evaluate(knobs, s, e);
        b := if CannotJoin(knobs, s, e) then Point(Crashed, s, e)
             else Point(if CannotRoute(t) then Crashed else Route(t), t, e);
      case Finalizer =>
        b := if CannotListGaps(knobs, s) then Point(Crashed, s, e)
             else Point(End, s.(final := Some(Shipped(knobs, s))), e);
    }
  }

  /** How a run is left tells what its last node met. */
  lemma {:induction false} LastStep(knobs: Knobs, a: Point, b: Point)
    requires Step(knobs, a, b)
    ensures b.node == Crashed <==> Derails(knobs, a)
    ensures b.node == End ==> a.node == Finalizer && b.state.final.Some?
    ensures !Over(a.node)
  {
    hide Evaluate, CannotJoin, CannotListGaps;
  }

  /**
   Every run is over within 16 node executions and 3 evaluations, whatever the models answer,
   and a run that is not over can go on.  It ends through the finalizer if and only if nothing
   derailed it: no verdict sent back names an action that is no key, no stuck and unfaithful one
   lists aspects that cannot be joined, and no abstention lists its gaps as a number or `true`.
   */
  lemma {:induction false} EveryRunEndsInTheFinalizer(knobs: Knobs, run: seq<Point>)
    requires IsRun(knobs, run)
    ensures |run| - 1 <= 16 && Evaluations(run, |run| - 1) <= MAX_REFLEXION
    ensures !Over(run[|run| - 1].node) ==> exists next :: IsRun(knobs, run + [next])
    ensures Over(run[|run| - 1].node) ==>
              |run| > 1 && (run[|run| - 1].node == End <==> forall i :: 0 <= i < |run| - 1 ==> !Derails(knobs, run[i]))
    ensures run[|run| - 1].node == End ==> run[|run| - 2].node == Finalizer && run[|run| - 1].state.final.Some?
  {
    var n := |run| - 1;
    FuelSpent(knobs, run, n);
    CountIsEvaluations(knobs, run, n);
    if Over(run[n].node) {
      forall i | 0 <= i < n
        ensures run[i + 1].node == Crashed <==> Derails(knobs, run[i])
        ensures !Over(run[i].node)
        ensures run[i + 1].node == End ==> run[i].node == Finalizer && run[i + 1].state.final.Some?
      {
        StepOfRun(knobs, run, i + 1);
        LastStep(knobs, run[i], run[i + 1]);
      }
      hide Derails;
      assert n == 0 || (run[n].node == Crashed <==> Derails(knobs, run[n - 1]));
      forall i | 0 <= i < n - 1 ensures !Derails(knobs, run[i]) {
        var j := i + 1;
        assert !Over(run[j].node);
      }
    } else {
      var next := AlwaysANextStep(knobs, run[n]);
      OneMore(knobs, run, next);
      assert IsRun(knobs, run + [next]);
    }
  }

  // ----- when the loop stops, and what ships -----

  /** Until the finalizer, no final answer counts: an empty one is falsy. */
  lemma {:induction false} NotFinalYet(knobs: Knobs, run: seq<Point>, i: nat)
    requires IsRun(knobs, run) && i < |run|
    ensures run[i].node !in {Finalizer, End, Crashed} ==> Falsy(run[i].state.final)
    ensures run[i].node == ReflexionEvaluator ==> run[i].state.draft.Some?
  {
    if i == 0 {
    } else {
      NotFinalYet(knobs, run, i - 1);
      StepOfRun(knobs, run, i);
      hide Evaluate, CannotJoin, IsRun;
    }
  }

  /**
   What ends the loop: the clock before the evaluation, or the third verdict, an accepting one, one
   off the list, no progress, or the clock after it; the last two only with something to ship.
   */
  predicate Stops(knobs: Knobs, s: State, e: Evaluation) {
    var f := Judge(knobs, e);
    || Skips(knobs, s, e.before)
    || s.count + 1 >= MAX_REFLEXION || f.action == Accept || f.action.Unknown?
    || (Stuck(s, f.completeness) && (Unfaithful(knobs, f) || !Falsy(s.draft)))
    || (LateAfter(knobs, s, e) && !Falsy(s.draft))
  }

  /**
   The same in numbers: three evaluations, an improvement of one twentieth or less, less than the
   reserve left before the timeout, more than the budget used; the clock needs a draft to ship.
   */
  lemma {:induction false} StopsMeans(knobs: Knobs, s: State, e: Evaluation)
    requires s.draft.Some?
    ensures var f, used := Judge(knobs, e), if s.start.Some? then e.before - s.start.value else 0.0;
            var again, timed := s.count > 0, s.start.Some? && s.draft.value != [];
            && (Skips(knobs, s, e.before) <==>
                || s.count > 2
                || (timed && (used + knobs.evalReserve > knobs.timeout || (again && used > knobs.reflexionBudget))))
            && (Stuck(s, f.completeness) <==>
                again && s.history != [] && 20.0 * (f.completeness - s.history[|s.history| - 1].completeness) <= 1.0)
            && (LateAfter(knobs, s, e) <==> s.start.Some? && e.after > s.start.value + knobs.reflexionBudget)
            && (Unfaithful(knobs, f) <==> f.faithfulness < knobs.faithfulnessAccept)
            && (Caveated(knobs, s, e) <==>
                && !Skips(knobs, s, e.before) && f.action != Accept
                && Stuck(s, f.completeness) && Unfaithful(knobs, f))
            && (Stops(knobs, s, e) <==>
                || Skips(knobs, s, e.before) || s.count == 2 || f.action == Accept || f.action.Unknown?
                || (Stuck(s, f.completeness) && (Unfaithful(knobs, f) || s.draft.value != []))
                || (LateAfter(knobs, s, e) && s.draft.value != []))
  {
    hide Judge;
  }

  /** Exactly when the loop stops, on any run: whatever is not stopped is sent back, or derails. */
  lemma {:induction false} WhenTheLoopStops(knobs: Knobs, run: seq<Point>, i: nat)
    requires IsRun(knobs, run) && i + 1 < |run| && run[i].node == ReflexionEvaluator
    ensures run[i + 1].node == Finalizer <==>
            !CannotJoin(knobs, run[i].state, run[i].e) && Stops(knobs, run[i].state, run[i].e)
  {
    NotFinalYet(knobs, run, i);
    CountIsEvaluations(knobs, run, i);
    StepOfRun(knobs, run, i + 1);
    if !CannotJoin(knobs, run[i].state, run[i].e) {
      StopsExactly(knobs, run[i].state, run[i].e);
    }
    hide IsRun, Evaluate, CannotJoin, Stops, CannotRoute, Route;
  }

  lemma {:induction false} StopsExactly(knobs: Knobs, s: State, e: Evaluation)
    requires Falsy(s.final) && !CannotJoin(knobs, s, e)
    ensures var t := Evaluate(knobs, s, e);
            (if CannotRoute(t) then Crashed else Route(t)) == Finalizer <==> Stops(knobs, s, e)
  {
    hide Judge;
  }

  /** The evaluator's state after a verdict on a draft, as the finalizer finds it. */
  lemma {:induction false} WhatIsChosen(knobs: Knobs, s: State, e: Evaluation)
    requires Falsy(s.final) && s.draft.Some? && !CannotJoin(knobs, s, e)
    ensures var f, t := Judge(knobs, e), Evaluate(knobs, s, e);
            Chosen(knobs, t) ==
            if Caveated(knobs, s, e) then WithCaveat(knobs, s.draft.value, f.missing.items)
            else if s.draft.value == [] then knobs.apology else s.draft.value
  {
    hide Judge;
  }

  /** The draft under evaluation goes to the finalizer as it is. */
  ghost predicate ShipsBare(knobs: Knobs, run: seq<Point>, i: nat)
    requires i + 1 < |run|
  {
    && run[i].state.draft.Some?
    && run[i + 1].node == Finalizer && Chosen(knobs, run[i + 1].state) == run[i].state.draft.value
  }

  /**
   Exactly which drafts that were found unfaithful ship without their caveat, on any run: those the
   model accepts all the same, and those that show progress but meet the third verdict, an action
   off the list, or the end of the budget.
   */
  lemma {:induction false} UnverifiedShipsExactly(knobs: Knobs, run: seq<Point>, i: nat)
    requires IsRun(knobs, run) && i + 1 < |run| && run[i].node == ReflexionEvaluator && !Falsy(run[i].state.draft)
    requires var s, e := run[i].state, run[i].e;
             !Skips(knobs, s, e.before) && Unfaithful(knobs, Judge(knobs, e))
    ensures var s, e := run[i].state, run[i].e;
            var f := Judge(knobs, e);
            ShipsBare(knobs, run, i) <==>
            || f.action == Accept
            || (!Stuck(s, f.completeness) &&
                (s.count + 1 >= MAX_REFLEXION || f.action.Unknown? || LateAfter(knobs, s, e)))
  {
    var s, e := run[i].state, run[i].e;
    WhenTheLoopStops(knobs, run, i);
    NotFinalYet(knobs, run, i);
    StepOfRun(knobs, run, i + 1);
    if !CannotJoin(knobs, s, e) {
      WhatIsChosen(knobs, s, e);
    }
    hide IsRun, Evaluate, Judge, CannotRoute, Route, Chosen;
  }

  /**
   What the user gets from any run that is not derailed: the last draft, with its caveat exactly when
   the evaluation found it unfaithful and no better than the one before, within an abstention exactly
   when the last verdict, were it on an earlier draft, calls for one; an empty draft is replaced.
   */
  lemma {:induction false} WhatShips(knobs: Knobs, run: seq<Point>)
    requires IsRun(knobs, run) && run[|run| - 1].node == End
    ensures |run| > 2 && run[|run| - 3].node == ReflexionEvaluator && run[|run| - 3].state.draft.Some?
    ensures !CannotJoin(knobs, run[|run| - 3].state, run[|run| - 3].e)
    ensures var s, e, t := run[|run| - 3].state, run[|run| - 3].e, run[|run| - 2].state;
            var f, draft := Judge(knobs, e), s.draft.value;
            var chosen := if Caveated(knobs, s, e) then draft + [knobs.rule] + knobs.caveat(f.missing.items)
                          else if draft == [] then knobs.apology else draft;
            var verdicts := if Skips(knobs, s, e.before) then s.history else s.history + [f];
            && t.history == verdicts
            && run[|run| - 1].state.final == Some(
                 if knobs.confidence && verdicts != [] && verdicts[|verdicts| - 1].completeness < knobs.abstainFloor
                    && verdicts[|verdicts| - 1].faithfulness >= knobs.faithfulnessAccept
                 then knobs.abstention(knobs.strip(chosen), verdicts[|verdicts| - 1].missing)
                 else knobs.strip(chosen))
  {
    var n := |run| - 1;
    LeadsToTheEnd(knobs, run);
    var s, e := run[n - 2].state, run[n - 2].e;
    NotFinalYet(knobs, run, n - 2);
    StepOfRun(knobs, run, n - 1);
    StepOfRun(knobs, run, n);
    WhatIsChosen(knobs, s, e);
    EvaluationCounts(knobs, s, e);
    hide IsRun, Judge, CannotRoute, Route, Chosen, Evaluate, CannotJoin, Caveated, Skips;
  }

  /** Before the end comes the finalizer, and before that an evaluation. */
  lemma {:induction false} LeadsToTheEnd(knobs: Knobs, run: seq<Point>)
    requires IsRun(knobs, run) && run[|run| - 1].node == End
    ensures |run| > 2 && run[|run| - 2].node == Finalizer && run[|run| - 3].node == ReflexionEvaluator
  {
    var n := |run| - 1;
    StartsAtThePlanner(knobs, run);
    hide *;
    StepOfRun(knobs, run, n);
    NodeBefore(knobs, run[n - 1], run[n]);
    StepOfRun(knobs, run, n - 1);
    NodeBefore(knobs, run[n - 2], run[n - 1]);
  }

  lemma {:induction false} StartsAtThePlanner(knobs: Knobs, run: seq<Point>)
    requires IsRun(knobs, run)
    ensures run != [] && run[0].node == QueryPlanner
  {
  }

  lemma {:induction false} NodeBefore(knobs: Knobs, a: Point, b: Point)
    requires Step(knobs, a, b)
    ensures b.node == End ==> a.node == Finalizer && b.state.final == Some(Shipped(knobs, a.state))
    ensures b.node == Finalizer ==> a.node == ReflexionEvaluator && b.state == Evaluate(knobs, a.state, a.e)
  {
    hide Evaluate, CannotJoin, CannotRoute, Shipped, CannotListGaps;
  }

  lemma {:induction false} PassagesStayDistinct(knobs: Knobs, run: seq<Point>, i: nat)
    requires IsRun(knobs, run) && i < |run|
    ensures ToolExecutor.NoRepeats(run[i].state.contexts)
  {
    if i == 0 {
    } else {
      PassagesStayDistinct(knobs, run, i - 1);
      StepOfRun(knobs, run, i);
      StepKeepsPassages(knobs, run[i - 1], run[i]);
    }
  }

  lemma {:induction false} StepKeepsPassages(knobs: Knobs, a: Point, b: Point)
    requires Step(knobs, a, b) && ToolExecutor.NoRepeats(a.state.contexts)
    ensures ToolExecutor.NoRepeats(b.state.contexts)
    ensures a.node != QueryPlanner || a.state.count > 0 ==> multiset(a.state.contexts) <= multiset(b.state.contexts)
  {
    if a.node == ReflexionEvaluator {
      EvaluationCounts(knobs, a.state, a.e);
      hide Evaluate, CannotJoin;
    }
  }

  lemma {:induction false} StepOfRun(knobs: Knobs, run: seq<Point>, i: nat)
    requires IsRun(knobs, run) && 0 < i < |run|
    ensures Step(knobs, run[i - 1], run[i])
  {
    assert StepAt(knobs, run, i);
  }

  /** Passages never repeat a text, and none gathered since the first planning is ever lost. */
  lemma {:induction false} NoPassageIsLost(knobs: Knobs, run: seq<Point>, i: nat, j: nat)
    requires IsRun(knobs, run) && 0 < i <= j < |run|
    ensures ToolExecutor.NoRepeats(run[j].state.contexts)
    ensures multiset(run[i].state.contexts) <= multiset(run[j].state.contexts)
  {
    hide *;
    PassagesStayDistinct(knobs, run, j);
    if i < j {
      NoPassageIsLost(knobs, run, i, j - 1);
      PassagesStayDistinct(knobs, run, j - 1);
      CountIsEvaluations(knobs, run, j - 1);
      StepOfRun(knobs, run, j);
      StepKeepsPassages(knobs, run[j - 1], run[j]);
    }
  }

  /**
   What a verdict that is sent back leads to, on any run: a rewrite sees the passages of the
   draft it replaces, more retrieval adds to them without a new plan, and a reformulation comes
   back through the planner; each ends in the next evaluation.
   */
  lemma {:induction false} RetriesLeadBack(knobs: Knobs, run: seq<Point>, i: nat)
    requires IsRun(knobs, run) && i + 1 < |run|
    requires run[i].node == ReflexionEvaluator && run[i + 1].node !in {Finalizer, Crashed}
    ensures var s := run[i + 1].state;
            s.history != [] &&
            match s.history[|s.history| - 1].action
            case Regenerate =>
              i + 2 < |run| ==>
                run[i + 2].node == ReflexionEvaluator && run[i + 2].state.contexts == run[i].state.contexts
            case RetrieveMore =>
              run[i + 1].node != QueryPlanner && (i + 4 < |run| ==> run[i + 4].node == ReflexionEvaluator)
            case Reformulate =>
              run[i + 1].node == QueryPlanner && (i + 5 < |run| ==> run[i + 5].node == ReflexionEvaluator)
            case _ => false
  {
    StepOfRun(knobs, run, i + 1);
    EvaluationCounts(knobs, run[i].state, run[i].e);
    hide Evaluate, CannotJoin;
    forall j | i + 1 < j <= i + 5 && j < |run| ensures StepAt(knobs, run, j) {
      StepOfRun(knobs, run, j);
    }
    assert i + 2 < |run| ==> StepAt(knobs, run, i + 2);
    assert i + 3 < |run| ==> StepAt(knobs, run, i + 3);
    assert i + 4 < |run| ==> StepAt(knobs, run, i + 4);
    assert i + 5 < |run| ==> StepAt(knobs, run, i + 5);
    hide IsRun;
  }

  /** The start of a run with no clock, and what its first evaluation will meet. */
  function Start(e: Evaluation): Point {
    Point(QueryPlanner, State([], None, None, 0, [], None), e)
  }

  /** An evaluation with no citable claims, or with one that is grounded, and the given verdict. */
  function Says(grounded: bool, completeness: real, action: Action, missing: Missing): Evaluation {
    Evaluation(0.0, 0.0, if grounded then Some((1, 1)) else None, Some(Verdict(completeness, Some(action), missing)))
  }

  /** The bound is met: a model that keeps asking for new plans and better drafts uses all 16. */
  lemma {:induction false} SixteenNodesAreNeeded(knobs: Knobs, draft: Answer) returns (run: seq<Point>)
    ensures IsRun(knobs, run) && |run| == 17 && run[16].node == End
    ensures run[15].node == Finalizer && run[15].state.draft == Some(draft) && run[15].state.final.None?
    ensures |run[15].state.history| == 3 && run[15].state.history[2] == Feedback(0.0, 3.0, Reformulate, Aspects([]))
    ensures run[16].state.final == Some(Shipped(knobs, run[15].state))
  {
    run := AskAgain(knobs, draft, 3);
    AskedThrice(knobs, run[15], draft);
    hide *;
    var over := ItShips(knobs, run[15]);
    OneMore(knobs, run, over);
    StartsARun(knobs, run + [over]);
    run := run + [over];
  }

  lemma {:induction false} AskedThrice(knobs: Knobs, p: Point, draft: Answer)
    requires Asked(p, draft, 3)
    ensures p.node == Finalizer && !CannotListGaps(knobs, p.state)
    ensures p.state.draft == Some(draft) && p.state.final.None?
    ensures |p.state.history| == 3 && p.state.history[2] == Feedback(0.0, 3.0, Reformulate, Aspects([]))
  {
  }

  lemma {:induction false} ItShips(knobs: Knobs, a: Point) returns (b: Point)
    requires a.node == Finalizer && !CannotListGaps(knobs, a.state)
    ensures Step(knobs, a, b) && b.node == End && b.state.final == Some(Shipped(knobs, a.state))
  {
    b := Point(End, a.state.(final := Some(Shipped(knobs, a.state))), a.e);
  }

  /** A draft that was found unfaithful three times, each time with progress, ships as it is. */
  lemma {:induction false} ThirdVerdictShipsUnverified(knobs: Knobs, draft: Answer) returns (run: seq<Point>)
    requires knobs.faithfulnessAccept > 0.0 && draft != []
    ensures IsRun(knobs, run) && |run| == 17 && run[14].node == ReflexionEvaluator && run[16].node == End
    ensures |run[15].state.history| == 3 && Unfaithful(knobs, run[15].state.history[2])
    ensures ShipsBare(knobs, run, 14) && run[16].state.final == Some(knobs.strip(draft))
  {
    hide *;
    run := SixteenNodesAreNeeded(knobs, draft);
    UnfaithfulShips(knobs, run[15].state, draft, 3.0, Reformulate);
    LeadsToTheEnd(knobs, run);
    StepOfRun(knobs, run, 15);
    NodeBefore(knobs, run[14], run[15]);
    EvaluationCounts(knobs, run[14].state, run[14].e);
    ItIsBare(knobs, run, 14, draft);
  }

  lemma {:induction false} ItIsBare(knobs: Knobs, run: seq<Point>, i: nat, draft: Answer)
    requires i + 1 < |run| && run[i].state.draft == Some(draft) && run[i + 1].node == Finalizer
    requires Chosen(knobs, run[i + 1].state) == draft
    ensures ShipsBare(knobs, run, i)
  {
  }

  lemma {:induction false} UnfaithfulShips(knobs: Knobs, s: State, draft: Answer, completeness: real, action: Action)
    requires knobs.faithfulnessAccept > 0.0 && draft != [] && s.final.None? && s.draft == Some(draft)
    requires s.history != [] &&
             s.history[|s.history| - 1] == Feedback(0.0, completeness, action, Aspects([]))
    ensures Unfaithful(knobs, s.history[|s.history| - 1])
    ensures Chosen(knobs, s) == draft && Shipped(knobs, s) == knobs.strip(draft)
  {
  }

  /** So does one on its first verdict, if the model accepts it or names an action off the list. */
  lemma {:induction false} FirstVerdictShipsUnverified(knobs: Knobs, draft: Answer, action: Action)
    returns (run: seq<Point>)
    requires knobs.faithfulnessAccept > 0.0 && draft != [] && (action.Unknown? || action == Accept)
    ensures IsRun(knobs, run) && |run| == 7 && run[4].node == ReflexionEvaluator && run[6].node == End
    ensures Judge(knobs, run[4].e) == Feedback(0.0, 0.4, action, Aspects([]))
    ensures Unfaithful(knobs, Judge(knobs, run[4].e))
    ensures ShipsBare(knobs, run, 4) && run[6].state.final == Some(knobs.strip(draft))
  {
    var start := Start(Evaluation(0.0, 0.0, Some((0, 1)), Some(Verdict(0.4, Some(action), Aspects([])))));
    var drafted := start.state.(draft := Some(draft));
    assert 0 as real / 1 as real == 0.0;
    var f := Judge(knobs, start.e);
    assert f == Feedback(0.0, 0.4, action, Aspects([]));
    var done := drafted.(count := 1, history := [f], final := if action == Accept then Some(draft) else None);
    assert Evaluate(knobs, drafted, start.e) == done;
    var round := PlannedRound(knobs, start, draft, start.e);
    assert round[5] == Point(Finalizer, done, start.e);
    var end := Point(End, done.(final := Some(knobs.strip(draft))), start.e);
    assert Step(knobs, round[5], end);
    run := round + [end];
    hide *;
    OneMore(knobs, round, end);
    StartsARun(knobs, run);
  }

  /** An empty draft that makes no progress is final in name only: it is rewritten once more. */
  lemma {:induction false} EmptyDraftGoesOn(knobs: Knobs) returns (run: seq<Point>)
    requires knobs.faithfulnessAccept <= 1.0 && knobs.completenessAccept > 0.5
    ensures IsRun(knobs, run) && |run| == 8 && run[6].node == ReflexionEvaluator && run[7].node == AnswerGenerator
    ensures Stuck(run[6].state, Judge(knobs, run[6].e).completeness) && run[7].state.final == Some([])
  {
    var start := Start(Says(true, 0.5, Regenerate, Aspects([])));
    var drafted, f := start.state.(draft := Some([])), Judge(knobs, start.e);
    assert 1 as real / 1 as real == 1.0;
    assert f == Feedback(1.0, 0.5, Regenerate, Aspects([]));
    var once := drafted.(count := 1, history := [f]);
    assert Evaluate(knobs, drafted, start.e) == once;
    var round := PlannedRound(knobs, start, [], start.e);
    assert round[5] == Point(AnswerGenerator, once, start.e);
    var twice := once.(count := 2, history := [f, f], final := Some([]));
    assert Evaluate(knobs, once, start.e) == twice;
    var again, rewrite := Point(ReflexionEvaluator, once, start.e), Point(AnswerGenerator, twice, start.e);
    assert Step(knobs, round[5], again) && Step(knobs, again, rewrite);
    hide *;
    OneMore(knobs, round, again);
    OneMore(knobs, round + [again], rewrite);
    run := round + [again] + [rewrite];
    StartsARun(knobs, run);
  }

  /** The model sees progress and may ask for `n` new plans. */
  ghost predicate Asked(p: Point, draft: Answer, n: nat) {
    && p.node == (if n < MAX_REFLEXION then QueryPlanner else Finalizer)
    && p.e == Asks(n + 1)
    && p.state.contexts == [] && p.state.start.None? && p.state.final.None?
    && p.state.count == |p.state.history| == n
    && (n > 0 ==> p.state.draft == Some(draft) &&
                  p.state.history[n - 1] == Feedback(0.0, n as real, Reformulate, Aspects([])))
  }

  /** An evaluation that asks for a new plan. */
  function Asks(n: nat): Evaluation {
    Says(false, n as real, Reformulate, Aspects([]))
  }

  lemma {:induction false} AskAgain(knobs: Knobs, draft: Answer, n: nat) returns (run: seq<Point>)
    requires n <= MAX_REFLEXION
    ensures |run| == 5 * n + 1 && run[0] == Start(Asks(1)) && Chain(knobs, run) && Asked(run[5 * n], draft, n)
  {
    if n == 0 {
      run := [Start(Asks(1))];
    } else {
      run := AskAgain(knobs, draft, n - 1);
      var round := Replanned(knobs, draft, run[5 * (n - 1)], n - 1);
      hide *;
      Joined(knobs, run, round);
      run := run + round[1..];
    }
  }

  lemma {:induction false} Replanned(knobs: Knobs, draft: Answer, a: Point, n: nat) returns (run: seq<Point>)
    requires n < MAX_REFLEXION && Asked(a, draft, n)
    ensures |run| == 6 && run[0] == a && Chain(knobs, run) && Asked(run[5], draft, n + 1)
  {
    var drafted, f := a.state.(draft := Some(draft)), Judge(knobs, a.e);
    assert f == Feedback(0.0, (n + 1) as real, Reformulate, Aspects([]));
    assert Evaluate(knobs, drafted, a.e) == drafted.(count := drafted.count + 1, history := drafted.history + [f]);
    run := PlannedRound(knobs, a, draft, Asks(n + 2));
  }

  lemma {:induction false} StartsARun(knobs: Knobs, run: seq<Point>)
    requires run != [] && IsStart(run[0]) && Chain(knobs, run)
    ensures IsRun(knobs, run)
  {
  }

  lemma {:induction false} Joined(knobs: Knobs, a: seq<Point>, b: seq<Point>)
    requires a != [] && b != [] && a[|a| - 1] == b[0] && Chain(knobs, a) && Chain(knobs, b)
    ensures Chain(knobs, a + b[1..])
  {
    hide Step;
    var all := a + b[1..];
    forall i | 0 < i < |all| ensures StepAt(knobs, all, i) {
      if i < |a| {
        assert StepAt(knobs, a, i);
      } else {
        assert StepAt(knobs, b, i - |a| + 1);
        assert all[i] == b[i - |a| + 1] && all[i - 1] == b[i - |a|];
      }
    }
  }

  lemma {:induction false} OneMore(knobs: Knobs, run: seq<Point>, next: Point)
    requires run != [] && Chain(knobs, run) && Step(knobs, run[|run| - 1], next)
    ensures Chain(knobs, run + [next])
  {
    hide Step;
    forall i | 0 < i < |run + [next]| ensures StepAt(knobs, run + [next], i) {
      if i < |run| {
        assert StepAt(knobs, run, i);
      }
    }
  }

  /** The five points of a planned round and the one after it, which will meet `next`. */
  lemma {:induction false} PlannedRound(knobs: Knobs, a: Point, draft: Answer, next: Evaluation)
    returns (run: seq<Point>)
    requires a.node == QueryPlanner && a.state.contexts == []
    requires !CannotJoin(knobs, a.state.(draft := Some(draft)), a.e)
    ensures |run| == 6 && run[0] == a && Chain(knobs, run)
    ensures run[4] == Point(ReflexionEvaluator, a.state.(draft := Some(draft)), a.e)
    ensures var t := Evaluate(knobs, a.state.(draft := Some(draft)), a.e);
            run[5] == Point(if CannotRoute(t) then Crashed else Route(t), t, next)
  {
    var s, e := a.state, a.e;
    var drafted := s.(draft := Some(draft));
    var t := Evaluate(knobs, drafted, e);
    run := [a, Point(ToolSelector, s, e), Point(ToolExecutorNode, s, e), Point(AnswerGenerator, s, e),
            Point(ReflexionEvaluator, drafted, e), Point(if CannotRoute(t) then Crashed else Route(t), t, next)];
    assert ToolExecutor.NoRepeats([]);
    hide Evaluate, Route, CannotRoute, CannotJoin;
  }

  /** A first verdict whose action is an array or object ends the run in the router. */
  lemma {:induction false} UnhashableActionDerails(knobs: Knobs) returns (run: seq<Point>)
    ensures IsRun(knobs, run) && |run| == 6 && run[5].node == Crashed && run[4].node == ReflexionEvaluator
  {
    var start := Start(Says(false, 0.4, Unhashable, Aspects([])));
    var drafted := start.state.(draft := Some([]));
    assert Judge(knobs, start.e).action == Unhashable;
    assert Evaluate(knobs, drafted, start.e) == drafted.(count := 1, history := [Judge(knobs, start.e)]);
    run := PlannedRound(knobs, start, [], start.e);
  }

  /** A second verdict, stuck and unfaithful, with null for the missing aspects ends the run in the evaluator. */
  lemma {:induction false} UnjoinableAspectsDerail(knobs: Knobs) returns (run: seq<Point>)
    requires knobs.faithfulnessAccept > 0.0
    ensures IsRun(knobs, run) && |run| == 8 && run[7].node == Crashed && run[6].node == ReflexionEvaluator
  {
    var start := Start(Says(false, 0.5, Regenerate, Aspects([])));
    var second := Evaluation(0.0, 0.0, None, Some(Verdict(0.5, Some(RetrieveMore), Null)));
    var drafted := start.state.(draft := Some([]));
    var once := drafted.(count := 1, history := [Judge(knobs, start.e)]);
    assert Evaluate(knobs, drafted, start.e) == once;
    var round := PlannedRound(knobs, start, [], second);
    assert round[5] == Point(AnswerGenerator, once, second);
    var again, crash := Point(ReflexionEvaluator, once, second), Point(Crashed, once, second);
    assert Judge(knobs, second) == Feedback(0.0, 0.5, RetrieveMore, Null);
    assert Step(knobs, round[5], again) && Step(knobs, again, crash);
    hide *;
    OneMore(knobs, round, again);
    OneMore(knobs, round + [again], crash);
    run := round + [again] + [crash];
    StartsARun(knobs, run);
  }

  /** An accepted answer below the abstention floor whose gaps are given as `true` ends the run in the finalizer. */
  lemma {:induction false} UnlistableGapsDerail(knobs: Knobs) returns (run: seq<Point>)
    requires knobs.confidence && knobs.faithfulnessAccept <= 1.0 && knobs.abstainFloor > 0.0
    ensures IsRun(knobs, run) && |run| == 7 && run[6].node == Crashed && run[5].node == Finalizer
  {
    var start := Start(Says(true, 0.0, Accept, Scalar(true)));
    var drafted := start.state.(draft := Some([]));
    var f := Judge(knobs, start.e);
    assert 1 as real / 1 as real == 1.0;
    assert f == Feedback(1.0, 0.0, Accept, Scalar(true));
    var done := drafted.(count := 1, history := [f], final := Some([]));
    assert Evaluate(knobs, drafted, start.e) == done;
    var round := PlannedRound(knobs, start, [], start.e);
    assert round[5] == Point(Finalizer, done, start.e);
    var crash := Point(Crashed, done, start.e);
    assert Step(knobs, round[5], crash);
    hide *;
    OneMore(knobs, round, crash);
    run := round + [crash];
    StartsARun(knobs, run);
  }
}
