/**
 The tool executor of agent/nodes/tool_executor_node.py: the results of all tool calls, in
 whatever order they finish, are merged into the passages without repeating a text.
 */
module ToolExecutor {
  import opened Common
  import opened Interleave

  type Call(==, !new)          // a tool name and its arguments

  /** A tool's result dictionary: which of its keys are present. */
  datatype Result = Result(error: Option<Message>, passages: Option<seq<Passage>>, text: Option<Text>)

  /** The environment: what each tool returns for a call, and how a failure reads. */
  datatype Tools = Tools(run: Call -> Result, name: Call -> Name, failure: (Name, Option<Message>) -> Text,
                                      unknown: Name)

  /** `p.setdefault("retriever", name)`. */
  function Tagged(p: Passage, name: Name): Passage {
    if p.retriever.Some? then p else p.(retriever := Some(name))
  }

  /** Every passage comes out with a retriever, and one that had its own comes out as it was. */
  function AllTagged(ps: seq<Passage>, name: Name): (r: seq<Passage>)
    ensures |r| == |ps|
    ensures forall i :: 0 <= i < |ps| ==>
              r[i].text == ps[i].text && r[i].retriever.Some? && (ps[i].retriever.Some? ==> r[i] == ps[i])
  {
    seq(|ps|, i requires 0 <= i < |ps| => Tagged(ps[i], name))
  }

  /** The passages a result offers: its own, its text as one, or one that reports the failure. */
  function Offered(tools: Tools, call: Call): seq<Passage> {
    var name, result := tools.name(call), tools.run(call);
    if result.error.None? && result.passages.Some? then AllTagged(result.passages.value, name)
    else if result.error.None? && result.text.Some? then [Passage(result.text.value, Some(name), None)]
    else [Passage(tools.failure(name, result.error), Some(name), None)]
  }

  lemma {:induction false} OfferedAreTagged(tools: Tools, call: Call)
    ensures forall p :: p in Offered(tools, call) ==> p.retriever.Some?
    ensures tools.run(call).error.None? && tools.run(call).passages.Some? ==>
              forall p :: p in tools.run(call).passages.value && p.retriever.Some? ==> p in Offered(tools, call)
    ensures var result, name := tools.run(call), tools.name(call);
            match (result.error, result.passages, result.text)
            case (None, Some(ps), _) =>
              && |Offered(tools, call)| == |ps|
              && forall i :: 0 <= i < |ps| ==>
                   Offered(tools, call)[i] ==
                   Passage(ps[i].text, Some(if ps[i].retriever.Some? then ps[i].retriever.value else name), ps[i].rest)
            case (None, None, Some(text)) => Offered(tools, call) == [Passage(text, Some(name), None)]
            case (error, _, _) => Offered(tools, call) == [Passage(tools.failure(name, error), Some(name), None)]
  {
    var result, offered := tools.run(call), Offered(tools, call);
    if result.error.None? && result.passages.Some? {
      var ps := result.passages.value;
      forall p | p in ps && p.retriever.Some? ensures p in offered {
        var i :| 0 <= i < |ps| && ps[i] == p;
        assert offered[i] == p;
      }
    }
  }

  ghost function Texts(s: seq<Passage>): set<Text> {
    set p <- s :: p.text
  }

  /** Passages that were not there before name their retriever. */
  ghost predicate NewOnesNamed(before: seq<Passage>, after: seq<Passage>) {
    forall p :: p in after ==> p in before || p.retriever.Some?
  }

  lemma {:induction false} NamedOnTop(before: seq<Passage>, between: seq<Passage>, after: seq<Passage>,
                                      out: seq<Passage>)
    requires NewOnesNamed(before, between) && NewOnesNamed(between, after) && multiset(out) == multiset(after)
    ensures NewOnesNamed(before, after) && NewOnesNamed(before, out)
  {
    SameMembers(out, after);
  }

  ghost predicate NoRepeats(s: seq<Passage>) {
    forall i, j :: 0 <= i < j < |s| ==> s[i].text != s[j].text
  }

  lemma {:induction false} TextsAppend(s: seq<Passage>, p: Passage)
    ensures Texts(s + [p]) == Texts(s) + {p.text}
  {
    forall q | q in s + [p] ensures q in s || q == p {
    }
    assert forall q :: q in s ==> q in s + [p];
    assert p in s + [p];
  }

  lemma {:induction false} TextsPrefix(s: seq<Passage>, n: nat)
    requires n < |s|
    ensures Texts(s[..n + 1]) == Texts(s[..n]) + {s[n].text}
  {
    TextsAppend(s[..n], s[n]);
    assert s[..n + 1] == s[..n] + [s[n]];
  }

  lemma {:induction false} StaysDistinct(s: seq<Passage>, p: Passage)
    requires NoRepeats(s) && p.text !in Texts(s)
    ensures NoRepeats(s + [p])
  {
    forall i | 0 <= i < |s| ensures s[i].text != p.text {
      assert s[i] in s;
    }
  }

  /** The passages, and after them those of the first `n` offered whose text is new. */
  ghost function Merged(contexts: seq<Passage>, offered: seq<Passage>, n: nat): seq<Passage>
    requires n <= |offered|
  {
    if n == 0 then contexts
    else
      var before := Merged(contexts, offered, n - 1);
      if offered[n - 1].text in Texts(before) then before else before + [offered[n - 1]]
  }

  /** Offered passage `i` is the first anywhere with its text. */
  ghost function IsNew(contexts: seq<Passage>, offered: seq<Passage>): nat -> bool {
    (i: nat) =>
      && i < |offered|
      && (forall p :: p in contexts ==> p.text != offered[i].text)
      && (forall k :: 0 <= k < i ==> offered[k].text != offered[i].text)
  }

  ghost function OfferedAt(offered: seq<Passage>): (nat, Passage) -> bool {
    (i: nat, p: Passage) => i < |offered| && p == offered[i]
  }

  /** Behind what was there come the offered passages that are the first with their text, in their order. */
  lemma {:induction false} MergedExactly(contexts: seq<Passage>, offered: seq<Passage>, n: nat)
    requires n <= |offered|
    ensures contexts <= Merged(contexts, offered, n)
    ensures Selects(Merged(contexts, offered, n)[|contexts|..], IsNew(contexts, offered), n, OfferedAt(offered))
  {
    if n == 0 {
    } else {
      MergedExactly(contexts, offered, n - 1);
      NewExactly(contexts, offered, n - 1);
      NextMerged(contexts, offered, n - 1);
      assert OfferedAt(offered)(n - 1, offered[n - 1]);
      hide *;
      var before, merged := Merged(contexts, offered, n - 1), Merged(contexts, offered, n);
      DropAppend(before, |contexts|, offered[n - 1]);
      SelectsNext(before[|contexts|..], IsNew(contexts, offered), n - 1, OfferedAt(offered), merged[|contexts|..]);
    }
  }

  lemma {:induction false} DropAppend<T>(s: seq<T>, n: nat, x: T)
    requires n <= |s|
    ensures (s + [x])[n..] == s[n..] + [x]
  {
  }

  lemma {:induction false} NextMerged(contexts: seq<Passage>, offered: seq<Passage>, n: nat)
    requires n < |offered|
    ensures var before := Merged(contexts, offered, n);
            Merged(contexts, offered, n + 1) ==
            if offered[n].text in Texts(before) then before else before + [offered[n]]
  {
    hide Texts;
  }

  lemma {:induction false} NewExactly(contexts: seq<Passage>, offered: seq<Passage>, n: nat)
    requires n < |offered|
    ensures IsNew(contexts, offered)(n) <==> offered[n].text !in Texts(Merged(contexts, offered, n))
  {
    MergedTexts(contexts, offered, n);
    TextsAre(contexts);
    hide Texts, Merged;
  }

  lemma {:induction false} TextsAre(s: seq<Passage>)
    ensures forall t :: t in Texts(s) <==> exists p :: p in s && p.text == t
  {
  }

  lemma {:induction false} MergedTexts(contexts: seq<Passage>, offered: seq<Passage>, n: nat)
    requires n <= |offered|
    ensures forall t :: t in Texts(Merged(contexts, offered, n)) <==>
              t in Texts(contexts) || exists k :: 0 <= k < n && offered[k].text == t
  {
    if n == 0 {
    } else {
      MergedTexts(contexts, offered, n - 1);
      TextsAppend(Merged(contexts, offered, n - 1), offered[n - 1]);
      hide Texts;
    }
  }

  /** Merging what two calls offer is merging one after the other. */
  lemma {:induction false} MergedSplits(contexts: seq<Passage>, first: seq<Passage>, second: seq<Passage>, n: nat)
    requires n <= |second|
    ensures Merged(contexts, first + second, |first| + n) == Merged(Merged(contexts, first, |first|), second, n)
  {
    if n == 0 {
      MergedPrefix(contexts, first, second, |first|);
    } else {
      MergedSplits(contexts, first, second, n - 1);
      assert (first + second)[|first| + n - 1] == second[n - 1];
      hide Texts;
    }
  }

  lemma {:induction false} MergedPrefix(contexts: seq<Passage>, first: seq<Passage>, second: seq<Passage>, n: nat)
    requires n <= |first|
    ensures Merged(contexts, first + second, n) == Merged(contexts, first, n)
  {
    if n == 0 {
    } else {
      MergedPrefix(contexts, first, second, n - 1);
      hide Texts;
    }
  }

  /** `_collect_result`: append the offered passages whose text is new. */
  method CollectResult(tools: Tools, call: Call, contexts: seq<Passage>, seen: set<Text>)
    returns (contexts': seq<Passage>, seen': set<Text>)
    requires seen == Texts(contexts)
    ensures seen' == Texts(contexts') == Texts(contexts) + Texts(Offered(tools, call))
    ensures contexts' == Merged(contexts, Offered(tools, call), |Offered(tools, call)|)
    ensures contexts <= contexts' && (NoRepeats(contexts) ==> NoRepeats(contexts'))
    ensures forall p :: p in contexts' ==> p in contexts || p in Offered(tools, call)
    ensures NewOnesNamed(contexts, contexts')
  {
    var offered := Offered(tools, call);
    contexts', seen' := contexts, seen;
    OfferedAreTagged(tools, call);
    hide Offered, Texts, NoRepeats;
    TextsOfNone();
    for n := 0 to |offered|
      invariant seen' == Texts(contexts') == Texts(contexts) + Texts(offered[..n])
      invariant contexts' == Merged(contexts, offered, n)
      invariant contexts <= contexts' && (NoRepeats(contexts) ==> NoRepeats(contexts'))
      invariant forall p :: p in contexts' ==> p in contexts || p in offered
    {
      var p := offered[n];
      TextsPrefix(offered, n);
      if p.text !in seen' {
        TextsAppend(contexts', p);
        if NoRepeats(contexts) {
          StaysDistinct(contexts', p);
        }
        seen' := seen' + {p.text};
        contexts' := contexts' + [p];
      }
    }
    assert offered[..|offered|] == offered;
  }

  lemma {:induction false} TextsOfNone()
    ensures forall s: seq<Passage> :: Texts(s[..0]) == {}
  {
  }

  /** The texts offered by the calls at the first `n` places of `order`. */
  ghost function Gathered(tools: Tools, calls: seq<Call>, order: seq<nat>, n: nat): set<Text>
    requires n <= |order| && forall j :: 0 <= j < |order| ==> order[j] < |calls|
  {
    if n == 0 then {}
    else Gathered(tools, calls, order, n - 1) + Texts(Offered(tools, calls[order[n - 1]]))
  }

  /** What those calls offer, in the order they finish. */
  ghost function AllOffered(tools: Tools, calls: seq<Call>, order: seq<nat>, n: nat): seq<Passage>
    requires n <= |order| && forall j :: 0 <= j < |order| ==> order[j] < |calls|
  {
    if n == 0 then [] else AllOffered(tools, calls, order, n - 1) + Offered(tools, calls[order[n - 1]])
  }

  /** The call at place `j` adds its passages behind those of the ones before it. */
  lemma {:induction false} OffersInTurn(tools: Tools, calls: seq<Call>, order: seq<nat>, j: nat, n: nat)
    requires j < n <= |order| && forall j :: 0 <= j < |order| ==> order[j] < |calls|
    ensures AllOffered(tools, calls, order, j) + Offered(tools, calls[order[j]]) <= AllOffered(tools, calls, order, n)
    ensures j == 0 ==> AllOffered(tools, calls, order, j) == []
    ensures n == j + 1 ==>
              AllOffered(tools, calls, order, n) ==
              AllOffered(tools, calls, order, j) + Offered(tools, calls[order[j]])
    decreases n
  {
    hide Offered;
    if n > j + 1 {
      OffersInTurn(tools, calls, order, j, n - 1);
    }
  }

  /** Every submitted call finishes, in some order. */
  ghost predicate Completes(order: seq<nat>, n: nat) {
    |order| == n && (forall j :: 0 <= j < |order| ==> order[j] < n) && (forall i :: 0 <= i < n ==> i in order)
  }

  lemma {:induction false} GatheredIsUnion(tools: Tools, calls: seq<Call>, order: seq<nat>, n: nat, t: Text)
    requires n <= |order| && forall j :: 0 <= j < |order| ==> order[j] < |calls|
    ensures t in Gathered(tools, calls, order, n) <==>
            exists j :: 0 <= j < n && t in Texts(Offered(tools, calls[order[j]]))
  {
    if n == 0 {
    } else {
      GatheredIsUnion(tools, calls, order, n - 1, t);
    }
  }

  /** Which texts are gathered does not depend on which tool finished first. */
  lemma {:induction false} OrderDoesNotMatter(tools: Tools, calls: seq<Call>, first: seq<nat>, second: seq<nat>)
    requires Completes(first, |calls|) && Completes(second, |calls|)
    ensures Gathered(tools, calls, first, |calls|) == Gathered(tools, calls, second, |calls|)
  {
    GatheredWithin(tools, calls, first, second);
    GatheredWithin(tools, calls, second, first);
  }

  lemma {:induction false} GatheredWithin(tools: Tools, calls: seq<Call>, first: seq<nat>, second: seq<nat>)
    requires Completes(first, |calls|) && Completes(second, |calls|)
    ensures Gathered(tools, calls, first, |calls|) <= Gathered(tools, calls, second, |calls|)
  {
    forall t | t in Gathered(tools, calls, first, |calls|)
      ensures t in Gathered(tools, calls, second, |calls|)
    {
      GatheredIsUnion(tools, calls, first, |calls|, t);
      GatheredIsUnion(tools, calls, second, |calls|, t);
      hide Gathered, Offered, Texts;
      var j :| 0 <= j < |calls| && t in Texts(Offered(tools, calls[first[j]]));
      var i := first[j];
      assert i in second;
      var k :| 0 <= k < |second| && second[k] == i;
      assert t in Texts(Offered(tools, calls[second[k]]));
    }
  }

  /**
   `tool_executor_node`: the calls past the limit are dropped, the others finish in `order`, and
   the passages come back interleaved.  No text appears twice, no passage gathered before is
   lost, and the new texts are exactly those the kept calls offered.
   */
  method ToolExecutorNode(tools: Tools, calls: seq<Call>, limit: int, order: seq<nat>, contexts: seq<Passage>)
    returns (out: seq<Passage>, log: seq<Call>)
    requires Completes(order, |Kept(calls, limit)|)
    ensures var offered := AllOffered(tools, Kept(calls, limit), order, |order|);
            out == Interleaved(Merged(contexts, offered, |offered|), tools.unknown)
    ensures NoRepeats(contexts) ==> NoRepeats(out)
    ensures multiset(contexts) <= multiset(out) && NewOnesNamed(contexts, out)
    ensures Texts(out) == Texts(contexts) + Gathered(tools, Kept(calls, limit), order, |order|)
    ensures |log| == |order| && forall j :: 0 <= j < |log| ==> log[j] == Kept(calls, limit)[order[j]]
  {
    var kept := Kept(calls, limit);
    assert forall j :: 0 <= j < |order| ==> order[j] < |kept|;
    hide *;
    var gathered;
    gathered, log := CollectAll(tools, kept, order, contexts);
    LogsAre(kept, order, log);
    MergedAllIs(tools, kept, order, |order|, contexts);
    out := InterleaveByRetriever(gathered, tools.unknown);
    InterleavedKeeps(gathered, tools.unknown);
    NamedOnTop(contexts, gathered, gathered, out);
    assert gathered == contexts + gathered[|contexts|..];
  }

  /** Its loop over the results, as they come in. */
  method CollectAll(tools: Tools, kept: seq<Call>, order: seq<nat>, contexts: seq<Passage>)
    returns (gathered: seq<Passage>, log: seq<Call>)
    requires forall j :: 0 <= j < |order| ==> order[j] < |kept|
    ensures gathered == MergedAll(tools, kept, order, |order|, contexts)
    ensures Texts(gathered) == Texts(contexts) + Gathered(tools, kept, order, |order|)
    ensures contexts <= gathered && (NoRepeats(contexts) ==> NoRepeats(gathered))
    ensures NewOnesNamed(contexts, gathered)
    ensures |log| == |order| && Logs(kept, order, log)
  {
    hide *;
    LogsOfNone(kept, order);
    var seen := TextsOf(contexts);
    gathered, log := contexts, [];
    CollectsFrom(tools, kept, order, contexts);
    for n := 0 to |order|
      invariant seen == Texts(gathered) && Collecting(tools, kept, order, n, contexts, gathered)
      invariant |log| == n && Logs(kept, order, log)
    {
      var call := kept[order[n]];
      ghost var before := gathered;
      gathered, seen := CollectResult(tools, call, gathered, seen);
      CollectsOne(tools, kept, order, n, contexts, before, gathered);
      LogsOne(kept, order, log);
      log := log + [call];
    }
    Collected(tools, kept, order, contexts, gathered);
  }

  method TextsOf(contexts: seq<Passage>) returns (seen: set<Text>)
    ensures seen == Texts(contexts)
  {
    seen := set p <- contexts :: p.text;
  }

  /** The calls logged are those that have finished. */
  ghost predicate Logs(kept: seq<Call>, order: seq<nat>, log: seq<Call>) {
    && |log| <= |order|
    && forall j :: 0 <= j < |log| ==> order[j] < |kept| && log[j] == kept[order[j]]
  }

  lemma {:induction false} LogsAre(kept: seq<Call>, order: seq<nat>, log: seq<Call>)
    requires Logs(kept, order, log)
    ensures forall j :: 0 <= j < |log| ==> j < |order| && order[j] < |kept| && log[j] == kept[order[j]]
  {
  }

  lemma {:induction false} LogsOfNone(kept: seq<Call>, order: seq<nat>)
    ensures Logs(kept, order, [])
  {
  }

  lemma {:induction false} LogsOne(kept: seq<Call>, order: seq<nat>, log: seq<Call>)
    requires Logs(kept, order, log) && |log| < |order| && order[|log|] < |kept|
    ensures Logs(kept, order, log + [kept[order[|log|]]])
  {
  }

  /** What the loop has after `n` results. */
  ghost predicate Collecting(tools: Tools, kept: seq<Call>, order: seq<nat>, n: nat, contexts: seq<Passage>,
                             gathered: seq<Passage>)
    requires n <= |order| && forall j :: 0 <= j < |order| ==> order[j] < |kept|
  {
    && gathered == MergedAll(tools, kept, order, n, contexts)
    && Texts(gathered) == Texts(contexts) + Gathered(tools, kept, order, n)
    && contexts <= gathered && (NoRepeats(contexts) ==> NoRepeats(gathered))
    && NewOnesNamed(contexts, gathered)
  }

  lemma {:induction false} CollectsFrom(tools: Tools, kept: seq<Call>, order: seq<nat>, contexts: seq<Passage>)
    requires forall j :: 0 <= j < |order| ==> order[j] < |kept|
    ensures Collecting(tools, kept, order, 0, contexts, contexts)
  {
    NoneOffered(tools, kept, order, contexts);
    assert NewOnesNamed(contexts, contexts);
    hide Texts, NoRepeats, NewOnesNamed, MergedAll, Gathered;
  }

  lemma {:induction false} CollectsOne(tools: Tools, kept: seq<Call>, order: seq<nat>, n: nat, contexts: seq<Passage>,
                                       before: seq<Passage>, after: seq<Passage>)
    requires n < |order| && forall j :: 0 <= j < |order| ==> order[j] < |kept|
    requires Collecting(tools, kept, order, n, contexts, before)
    requires var offered := Offered(tools, kept[order[n]]);
             && after == Merged(before, offered, |offered|)
             && Texts(after) == Texts(before) + Texts(offered)
    requires before <= after && (NoRepeats(before) ==> NoRepeats(after)) && NewOnesNamed(before, after)
    ensures Collecting(tools, kept, order, n + 1, contexts, after)
  {
    GatherOne(tools, kept, order, n, Texts(contexts));
    MergeOne(tools, kept, order, n, contexts);
    NamedOnTop(contexts, before, after, after);
    hide Texts, NoRepeats, NewOnesNamed, MergedAll, Gathered, Merged, Offered;
  }

  lemma {:induction false} Collected(tools: Tools, kept: seq<Call>, order: seq<nat>, contexts: seq<Passage>,
                                     gathered: seq<Passage>)
    requires forall j :: 0 <= j < |order| ==> order[j] < |kept|
    requires Collecting(tools, kept, order, |order|, contexts, gathered)
    ensures gathered == MergedAll(tools, kept, order, |order|, contexts)
    ensures Texts(gathered) == Texts(contexts) + Gathered(tools, kept, order, |order|)
    ensures contexts <= gathered && (NoRepeats(contexts) ==> NoRepeats(gathered))
    ensures NewOnesNamed(contexts, gathered)
  {
    hide Texts, NoRepeats, NewOnesNamed, MergedAll, Gathered;
  }

  ghost function MergedAll(tools: Tools, calls: seq<Call>, order: seq<nat>, n: nat,
                           contexts: seq<Passage>): seq<Passage>
    requires n <= |order| && forall j :: 0 <= j < |order| ==> order[j] < |calls|
  {
    var offered := AllOffered(tools, calls, order, n);
    Merged(contexts, offered, |offered|)
  }

  lemma {:induction false} MergedAllIs(tools: Tools, calls: seq<Call>, order: seq<nat>, n: nat, contexts: seq<Passage>)
    requires n <= |order| && forall j :: 0 <= j < |order| ==> order[j] < |calls|
    ensures var offered := AllOffered(tools, calls, order, n);
            MergedAll(tools, calls, order, n, contexts) == Merged(contexts, offered, |offered|)
  {
    hide Offered, AllOffered, Merged;
  }

  lemma {:induction false} NoneOffered(tools: Tools, calls: seq<Call>, order: seq<nat>, contexts: seq<Passage>)
    requires forall j :: 0 <= j < |order| ==> order[j] < |calls|
    ensures Gathered(tools, calls, order, 0) == {} && MergedAll(tools, calls, order, 0, contexts) == contexts
  {
  }

  lemma {:induction false} MergeOne(tools: Tools, calls: seq<Call>, order: seq<nat>, n: nat, contexts: seq<Passage>)
    requires n < |order| && forall j :: 0 <= j < |order| ==> order[j] < |calls|
    ensures var offered := Offered(tools, calls[order[n]]);
            MergedAll(tools, calls, order, n + 1, contexts) ==
            Merged(MergedAll(tools, calls, order, n, contexts), offered, |offered|)
  {
    hide *;
    var offered := Offered(tools, calls[order[n]]);
    OffersInTurn(tools, calls, order, n, n + 1);
    MergedSplits(contexts, AllOffered(tools, calls, order, n), offered, |offered|);
    MergedAllIs(tools, calls, order, n, contexts);
    MergedAllIs(tools, calls, order, n + 1, contexts);
  }

  lemma {:induction false} GatherOne(tools: Tools, calls: seq<Call>, order: seq<nat>, n: nat, before: set<Text>)
    requires n < |order| && forall j :: 0 <= j < |order| ==> order[j] < |calls|
    ensures before + Gathered(tools, calls, order, n + 1) ==
            before + Gathered(tools, calls, order, n) + Texts(Offered(tools, calls[order[n]]))
  {
    hide Offered, Texts;
  }

  /** All the calls if they are within the limit, and otherwise the first `limit`. */
  function Kept(calls: seq<Call>, limit: int): (r: seq<Call>)
    ensures |calls| <= limit ==> r == calls
    ensures 0 <= limit <= |calls| ==> r == calls[..limit]
    ensures limit < 0 ==> r == calls[..Monus(|calls|, -limit)]
  {
    if |calls| > limit then Take(calls, limit) else calls
  }

  /** Interleaving keeps texts distinct, and the same. */
  lemma {:induction false} InterleavedKeeps(s: seq<Passage>, unknown: Name)
    ensures multiset(Interleaved(s, unknown)) == multiset(s)
    ensures Texts(Interleaved(s, unknown)) == Texts(s)
    ensures NoRepeats(s) ==> NoRepeats(Interleaved(s, unknown))
  {
    var out := Interleaved(s, unknown);
    IsPermutation(s, unknown);
    hide Interleaved;
    SameMembers(out, s);
    if NoRepeats(s) {
      ReorderedStaysDistinct(s, out);
    }
  }

  lemma {:induction false} SameMembers(a: seq<Passage>, b: seq<Passage>)
    requires multiset(a) == multiset(b)
    ensures forall p :: p in a <==> p in b
  {
    forall p ensures p in a <==> p in b {
      assert p in a <==> p in multiset(a);
      assert p in b <==> p in multiset(b);
    }
  }

  lemma {:induction false} ReorderedStaysDistinct(s: seq<Passage>, out: seq<Passage>)
    requires multiset(out) == multiset(s) && NoRepeats(s)
    ensures NoRepeats(out)
  {
    SameMembers(out, s);
    forall i, j | 0 <= i < j < |out| ensures out[i].text != out[j].text {
      if out[i].text == out[j].text {
        assert out[i] in out && out[j] in out;
        var a :| 0 <= a < |s| && s[a] == out[i];
        var b :| 0 <= b < |s| && s[b] == out[j];
        assert a == b;
        TwiceIsTwo(out, i, j);
        OnceIsOne(s, a);
      }
    }
  }

  lemma {:induction false} TwiceIsTwo(s: seq<Passage>, i: nat, j: nat)
    requires i < j < |s| && s[i] == s[j]
    ensures multiset(s)[s[i]] >= 2
  {
    assert s == s[..j] + [s[j]] + s[j + 1..];
    assert s[i] in s[..j];
    assert s[i] in multiset(s[..j]);
  }

  lemma {:induction false} OnceIsOne(s: seq<Passage>, i: nat)
    requires NoRepeats(s) && i < |s|
    ensures multiset(s)[s[i]] == 1
  {
    var before, after := s[..i], s[i + 1..];
    assert s == before + [s[i]] + after;
    assert s[i] !in before && s[i] !in after;
    assert s[i] !in multiset(before) && s[i] !in multiset(after);
  }
}
