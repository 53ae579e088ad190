/**
 The passages of agent/nodes/tool_executor_node.py: results collected without duplicate texts,
 then interleaved round-robin so that every retriever gets its share of the head of the list.
 */
module Interleave {
  import opened Common

  type Name(==, !new)
  type Text(==, !new)
  type Rest(==, !new)          // the fields of a passage that nothing here looks at
  type Message(==, !new)

  datatype Passage = Passage(text: Text, retriever: Option<Name>, rest: Option<Rest>)

  /** `c.get("retriever", "unknown")`. */
  function Key(p: Passage, unknown: Name): Name {
    if p.retriever.Some? then p.retriever.value else unknown
  }

  // ----- specification: queues and rounds -----

  /** The passages of one retriever among the first `n`, in order. */
  function Of(s: seq<Passage>, unknown: Name, name: Name, n: nat): seq<Passage>
    requires n <= |s|
  {
    if n == 0 then []
    else if Key(s[n - 1], unknown) == name then Of(s, unknown, name, n - 1) + [s[n - 1]]
    else Of(s, unknown, name, n - 1)
  }

  /** The retrievers of the first `n` passages, in the order they are first seen. */
  function Names(s: seq<Passage>, unknown: Name, n: nat): seq<Name>
    requires n <= |s|
  {
    if n == 0 then []
    else
      var before := Names(s, unknown, n - 1);
      if Key(s[n - 1], unknown) in before then before else before + [Key(s[n - 1], unknown)]
  }

  function Queues(s: seq<Passage>, unknown: Name): seq<seq<Passage>> {
    var names := Names(s, unknown, |s|);
    seq(|names|, i requires 0 <= i < |names| => Of(s, unknown, names[i], |s|))
  }

  /** What round `r` takes from the first `k` queues. */
  function Round<T>(qs: seq<seq<T>>, r: nat, k: nat): seq<T>
    requires k <= |qs|
  {
    if k == 0 then []
    else if r < |qs[k - 1]| then Round(qs, r, k - 1) + [qs[k - 1][r]]
    else Round(qs, r, k - 1)
  }

  function Rounds<T>(qs: seq<seq<T>>, m: nat): seq<T> {
    if m == 0 then [] else Rounds(qs, m - 1) + Round(qs, m - 1, |qs|)
  }

  /** The round-robin order; no queue is longer than the whole list. */
  function Interleaved(s: seq<Passage>, unknown: Name): seq<Passage> {
    Rounds(Queues(s, unknown), |s|)
  }

  // ----- the loops -----

  /** The queues still alive after `r` rounds, among the first `k`. */
  ghost function Live<T>(qs: seq<seq<T>>, r: nat, k: nat): seq<seq<T>>
    requires k <= |qs|
  {
    if k == 0 then []
    else if r < |qs[k - 1]| then Live(qs, r, k - 1) + [qs[k - 1][r..]]
    else Live(qs, r, k - 1)
  }

  /** The heads of the first `k` queues. */
  ghost function Heads<T>(live: seq<seq<T>>, k: nat): seq<T>
    requires k <= |live| && forall i :: 0 <= i < |live| ==> live[i] != []
  {
    if k == 0 then [] else Heads(live, k - 1) + [live[k - 1][0]]
  }

  /** What is left of the first `k` queues once their heads are taken, without the empty ones. */
  ghost function LeftOver<T>(live: seq<seq<T>>, k: nat): seq<seq<T>>
    requires k <= |live| && forall i :: 0 <= i < |live| ==> live[i] != []
  {
    if k == 0 then []
    else if |live[k - 1]| > 1 then LeftOver(live, k - 1) + [live[k - 1][1..]]
    else LeftOver(live, k - 1)
  }

  lemma {:induction false} LiveIsNotEmpty<T>(qs: seq<seq<T>>, r: nat, k: nat)
    requires k <= |qs|
    ensures forall i :: 0 <= i < |Live(qs, r, k)| ==> Live(qs, r, k)[i] != []
  {
    if k == 0 {
    } else {
      LiveIsNotEmpty(qs, r, k - 1);
    }
  }

  lemma {:induction false} PrefixHeads<T>(live: seq<seq<T>>, more: seq<seq<T>>, k: nat)
    requires k <= |live| && forall i :: 0 <= i < |live + more| ==> (live + more)[i] != []
    requires forall i :: 0 <= i < |live| ==> live[i] != []
    ensures Heads(live + more, k) == Heads(live, k) && LeftOver(live + more, k) == LeftOver(live, k)
  {
    if k == 0 {
    } else {
      PrefixHeads(live, more, k - 1);
      assert (live + more)[k - 1] == live[k - 1];
    }
  }

  /** One round takes the heads of the live queues and leaves the queues of the next round. */
  lemma {:induction false} RoundTakesHeads<T>(qs: seq<seq<T>>, r: nat, k: nat)
    requires k <= |qs|
    ensures forall i :: 0 <= i < |Live(qs, r, k)| ==> Live(qs, r, k)[i] != []
    ensures Heads(Live(qs, r, k), |Live(qs, r, k)|) == Round(qs, r, k)
    ensures LeftOver(Live(qs, r, k), |Live(qs, r, k)|) == Live(qs, r + 1, k)
  {
    LiveIsNotEmpty(qs, r, k);
    if k > 0 {
      RoundTakesHeads(qs, r, k - 1);
      var before, q := Live(qs, r, k - 1), qs[k - 1];
      if r < |q| {
        var live := Live(qs, r, k);
        assert live == before + [q[r..]] && live[|before|] == q[r..];
        PrefixHeads(before, [q[r..]], |before|);
        assert q[r..][1..] == q[r + 1..];
      }
    }
  }

  lemma {:induction false} LiveMeansLong<T>(qs: seq<seq<T>>, r: nat, k: nat)
    requires k <= |qs| && Live(qs, r, k) != []
    ensures exists i :: 0 <= i < k && r < |qs[i]|
  {
    if r >= |qs[k - 1]| {
      LiveMeansLong(qs, r, k - 1);
    }
  }

  lemma {:induction false} AllLiveAtFirst<T>(qs: seq<seq<T>>, k: nat)
    requires k <= |qs| && forall i :: 0 <= i < |qs| ==> qs[i] != []
    ensures Live(qs, 0, k) == qs[..k]
  {
    if k == 0 {
    } else {
      AllLiveAtFirst(qs, k - 1);
      assert qs[k - 1][0..] == qs[k - 1];
      assert qs[..k] == qs[..k - 1] + [qs[k - 1]];
    }
  }

  /** Rounds past the longest queue add nothing. */
  lemma {:induction false} RoundsStop<T>(qs: seq<seq<T>>, r: nat, m: nat)
    requires r <= m && Live(qs, r, |qs|) == []
    ensures Rounds(qs, m) == Rounds(qs, r)
  {
    hide *;
    if m == r {
    } else {
      NextRound(qs, m - 1);
      DeadStaysDead(qs, r, m - 1, |qs|);
      RoundsStop(qs, r, m - 1);
      AppendNothing(Rounds(qs, m - 1));
    }
  }

  lemma {:induction false} AppendNothing<T>(s: seq<T>)
    ensures s + [] == s
  {
  }

  lemma {:induction false} DeadStaysDead<T>(qs: seq<seq<T>>, r: nat, m: nat, k: nat)
    requires r <= m && k <= |qs| && Live(qs, r, k) == []
    ensures Round(qs, m, k) == []
  {
    if k == 0 {
    } else {
      DeadStaysDead(qs, r, m, k - 1);
    }
  }

  lemma {:induction false} OfBound(s: seq<Passage>, unknown: Name, name: Name, n: nat)
    requires n <= |s|
    ensures |Of(s, unknown, name, n)| <= n
    ensures Of(s, unknown, name, n) != [] <==> name in Names(s, unknown, n)
    ensures forall p :: p in Of(s, unknown, name, n) ==> Key(p, unknown) == name
  {
    if n == 0 {
    } else {
      OfBound(s, unknown, name, n - 1);
    }
  }

  lemma {:induction false} NamesAreDistinct(s: seq<Passage>, unknown: Name, n: nat)
    requires n <= |s|
    ensures Distinct(Names(s, unknown, n))
  {
    if n == 0 {
    } else {
      NamesAreDistinct(s, unknown, n - 1);
    }
  }

  ghost predicate Distinct<T>(s: seq<T>) {
    forall i, j :: 0 <= i < j < |s| ==> s[i] != s[j]
  }

  /** The first loop: an ordered dictionary of queues. */
  method GroupByRetriever(contexts: seq<Passage>, unknown: Name) returns (qs: seq<seq<Passage>>)
    ensures qs == Queues(contexts, unknown)
  {
    var names: seq<Name>, groups: map<Name, seq<Passage>> := [], map[];
    for n := 0 to |contexts|
      invariant names == Names(contexts, unknown, n)
      invariant forall name :: name in groups <==> name in names
      invariant forall name :: name in groups ==> groups[name] == Of(contexts, unknown, name, n)
    {
      var key := Key(contexts[n], unknown);
      if key !in groups {
        OfBound(contexts, unknown, key, n);
        names, groups := names + [key], groups[key := []];
      }
      groups := groups[key := groups[key] + [contexts[n]]];
    }
    qs := seq(|names|, i requires 0 <= i < |names| && names[i] in groups => groups[names[i]]);
  }

  /** The inner loop: every queue gives its head, and the empty ones are dropped. */
  method TakeHeads<T>(queues: seq<seq<T>>, sofar: seq<T>) returns (out: seq<T>, left: seq<seq<T>>)
    requires forall i :: 0 <= i < |queues| ==> queues[i] != []
    ensures out == sofar + Heads(queues, |queues|) && left == LeftOver(queues, |queues|)
  {
    out, left := sofar, [];
    for k := 0 to |queues|
      invariant out == sofar + Heads(queues, k) && left == LeftOver(queues, k)
    {
      out := out + [queues[k][0]];
      if queues[k][1..] != [] {
        left := left + [queues[k][1..]];
      }
    }
  }

  /** `_interleave_by_retriever`. */
  method InterleaveByRetriever(contexts: seq<Passage>, unknown: Name) returns (out: seq<Passage>)
    ensures out == Interleaved(contexts, unknown)
  {
    var queues := GroupByRetriever(contexts, unknown);
    ghost var qs := queues;
    ghost var r := 0;
    out := [];
    FirstQueues(contexts, unknown);
    hide Queues, Live, Heads, LeftOver, Round, Rounds;
    while queues != []
      invariant qs == Queues(contexts, unknown) && 0 <= r <= |contexts|
      invariant out == Rounds(qs, r) && queues == Live(qs, r, |qs|)
      decreases |contexts| - r
    {
      LastRound(contexts, unknown, r);
      RoundTakesHeads(qs, r, |qs|);
      NextRound(qs, r);
      out, queues := TakeHeads(queues, out);
      r := r + 1;
    }
    RoundsStop(qs, r, |contexts|);
  }

  lemma {:induction false} NextRound<T>(qs: seq<seq<T>>, r: nat)
    ensures Rounds(qs, r + 1) == Rounds(qs, r) + Round(qs, r, |qs|)
  {
  }

  lemma {:induction false} FirstQueues(s: seq<Passage>, unknown: Name)
    ensures Rounds(Queues(s, unknown), 0) == []
    ensures Live(Queues(s, unknown), 0, |Queues(s, unknown)|) == Queues(s, unknown)
  {
    var qs, names := Queues(s, unknown), Names(s, unknown, |s|);
    forall i | 0 <= i < |qs| ensures qs[i] != [] {
      OfBound(s, unknown, names[i], |s|);
    }
    AllLiveAtFirst(qs, |qs|);
  }

  lemma {:induction false} LastRound(s: seq<Passage>, unknown: Name, r: nat)
    ensures Live(Queues(s, unknown), r, |Queues(s, unknown)|) != [] ==> r < |s|
  {
    var qs, names := Queues(s, unknown), Names(s, unknown, |s|);
    if Live(qs, r, |qs|) != [] {
      LiveMeansLong(qs, r, |qs|);
      forall i | 0 <= i < |qs| ensures |qs[i]| <= |s| {
        OfBound(s, unknown, names[i], |s|);
      }
    }
  }

  // ----- what the order is good for -----

  /** Each queue holds the passages of its own retriever. */
  ghost predicate Sorted(qs: seq<seq<Passage>>, names: seq<Name>, unknown: Name) {
    && |qs| == |names| && Distinct(names)
    && forall i :: 0 <= i < |qs| ==> Belongs(qs[i], names[i], unknown)
  }

  ghost predicate Belongs(q: seq<Passage>, name: Name, unknown: Name) {
    forall j :: 0 <= j < |q| ==> Key(q[j], unknown) == name
  }

  lemma {:induction false} QueuesAreSorted(s: seq<Passage>, unknown: Name)
    ensures Sorted(Queues(s, unknown), Names(s, unknown, |s|), unknown)
  {
    var qs, names := Queues(s, unknown), Names(s, unknown, |s|);
    NamesAreDistinct(s, unknown, |s|);
    forall i | 0 <= i < |qs| ensures Belongs(qs[i], names[i], unknown) {
      OfBound(s, unknown, names[i], |s|);
    }
  }

  lemma {:induction false} OfAppend(a: seq<Passage>, b: seq<Passage>, unknown: Name, name: Name, n: nat)
    requires n <= |b|
    ensures Of(a + b, unknown, name, |a| + n) == Of(a, unknown, name, |a|) + Of(b, unknown, name, n)
  {
    if n == 0 {
      OfPrefix(a, b, unknown, name, |a|);
    } else {
      OfAppend(a, b, unknown, name, n - 1);
      assert (a + b)[|a| + n - 1] == b[n - 1];
    }
  }

  lemma {:induction false} OfPrefix(a: seq<Passage>, b: seq<Passage>, unknown: Name, name: Name, n: nat)
    requires n <= |a|
    ensures Of(a + b, unknown, name, n) == Of(a, unknown, name, n)
  {
    if n == 0 {
    } else {
      OfPrefix(a, b, unknown, name, n - 1);
    }
  }

  lemma {:induction false} OfSingle(p: Passage, unknown: Name, name: Name)
    ensures AllOf([p], unknown, name) == if Key(p, unknown) == name then [p] else []
  {
    assert Of([p], unknown, name, 0) == [];
  }

  /** All the passages of one retriever. */
  function AllOf(s: seq<Passage>, unknown: Name, name: Name): seq<Passage> {
    Of(s, unknown, name, |s|)
  }

  lemma {:induction false} AllOfAppend(a: seq<Passage>, b: seq<Passage>, unknown: Name, name: Name)
    ensures AllOf(a + b, unknown, name) == AllOf(a, unknown, name) + AllOf(b, unknown, name)
  {
    OfAppend(a, b, unknown, name, |b|);
  }

  /** What the k-th queue adds to round `r`. */
  lemma {:induction false} OfRoundStep(qs: seq<seq<Passage>>, names: seq<Name>, unknown: Name, r: nat, k: nat,
                                       name: Name)
    requires Sorted(qs, names, unknown) && k < |qs|
    ensures AllOf(Round(qs, r, k + 1), unknown, name) ==
            if r < |qs[k]| && names[k] == name then AllOf(Round(qs, r, k), unknown, name) + [qs[k][r]]
            else AllOf(Round(qs, r, k), unknown, name)
  {
    assert Belongs(qs[k], names[k], unknown);
    if r < |qs[k]| {
      assert Key(qs[k][r], unknown) == names[k];
      AllOfAppend(Round(qs, r, k), [qs[k][r]], unknown, name);
      OfSingle(qs[k][r], unknown, name);
      hide AllOf, Of, Sorted, Belongs;
    }
  }

  /** A name without a queue among the first `k` is in no round of theirs. */
  lemma {:induction false} StrangersMissTheRound(qs: seq<seq<Passage>>, names: seq<Name>, unknown: Name, r: nat, k: nat,
                                                 name: Name)
    requires Sorted(qs, names, unknown) && k <= |qs| && forall j :: 0 <= j < k ==> names[j] != name
    ensures AllOf(Round(qs, r, k), unknown, name) == []
  {
    if k == 0 {
    } else {
      StrangersMissTheRound(qs, names, unknown, r, k - 1, name);
      OfRoundStep(qs, names, unknown, r, k - 1, name);
      hide *;
    }
  }

  /** Round `r` has the r-th passage of each queue that is long enough. */
  lemma {:induction false} OfRound(qs: seq<seq<Passage>>, names: seq<Name>, unknown: Name, r: nat, k: nat, i: nat)
    requires Sorted(qs, names, unknown) && i < k <= |qs|
    ensures AllOf(Round(qs, r, k), unknown, names[i]) == if r < |qs[i]| then [qs[i][r]] else []
  {
    OfRoundStep(qs, names, unknown, r, k - 1, names[i]);
    if i < k - 1 {
      OfRound(qs, names, unknown, r, k - 1, i);
      assert names[k - 1] != names[i];
      hide *;
    } else {
      StrangersMissTheRound(qs, names, unknown, r, k - 1, names[i]);
      hide *;
    }
  }

  /** After `m` rounds the i-th retriever has had its first `m` passages, in order. */
  lemma {:induction false} OfRounds(qs: seq<seq<Passage>>, names: seq<Name>, unknown: Name, m: nat, i: nat)
    requires Sorted(qs, names, unknown) && i < |qs|
    ensures AllOf(Rounds(qs, m), unknown, names[i]) == qs[i][..Min(m, |qs[i]|)]
  {
    if m == 0 {
    } else {
      OfRounds(qs, names, unknown, m - 1, i);
      OfRound(qs, names, unknown, m - 1, |qs|, i);
      AllOfAppend(Rounds(qs, m - 1), Round(qs, m - 1, |qs|), unknown, names[i]);
      hide AllOf, Of, Round, Sorted;
    }
  }

  lemma {:induction false} StrangersStayOut(qs: seq<seq<Passage>>, names: seq<Name>, unknown: Name, m: nat, name: Name)
    requires Sorted(qs, names, unknown) && name !in names
    ensures AllOf(Rounds(qs, m), unknown, name) == []
  {
    if m == 0 {
    } else {
      StrangersStayOut(qs, names, unknown, m - 1, name);
      StrangersMissTheRound(qs, names, unknown, m - 1, |qs|, name);
      AllOfAppend(Rounds(qs, m - 1), Round(qs, m - 1, |qs|), unknown, name);
    }
  }

  /** Every retriever's passages come out in the order they went in, none lost and none added. */
  lemma {:induction false} KeepsEachOrder(s: seq<Passage>, unknown: Name, name: Name)
    ensures var out := Interleaved(s, unknown);
            AllOf(out, unknown, name) == AllOf(s, unknown, name)
  {
    var qs, names := Queues(s, unknown), Names(s, unknown, |s|);
    QueuesAreSorted(s, unknown);
    OfBound(s, unknown, name, |s|);
    if name in names {
      var i :| 0 <= i < |names| && names[i] == name;
      OfRounds(qs, names, unknown, |s|, i);
      assert qs[i][..|qs[i]|] == qs[i];
    } else {
      StrangersStayOut(qs, names, unknown, |s|, name);
    }
  }

  lemma {:induction false} OfCounts(s: seq<Passage>, unknown: Name, p: Passage, n: nat)
    requires n <= |s|
    ensures multiset(s[..n])[p] == multiset(Of(s, unknown, Key(p, unknown), n))[p]
  {
    if n == 0 {
    } else {
      OfCounts(s, unknown, p, n - 1);
      assert s[..n] == s[..n - 1] + [s[n - 1]];
    }
  }

  /** The result is a permutation of the passages. */
  lemma {:induction false} IsPermutation(s: seq<Passage>, unknown: Name)
    ensures multiset(Interleaved(s, unknown)) == multiset(s)
  {
    var out := Interleaved(s, unknown);
    forall p ensures multiset(out)[p] == multiset(s)[p] {
      KeepsEachOrder(s, unknown, Key(p, unknown));
      OfCounts(s, unknown, p, |s|);
      OfCounts(out, unknown, p, |out|);
      assert s[..|s|] == s && out[..|out|] == out;
    }
  }

  lemma {:induction false} RoundIsShort<T>(qs: seq<seq<T>>, r: nat, k: nat)
    requires k <= |qs|
    ensures |Round(qs, r, k)| <= k
  {
    if k == 0 {
    } else {
      RoundIsShort(qs, r, k - 1);
    }
  }

  ghost function Times(m: nat, k: nat): nat {
    m * k
  }

  lemma {:induction false} TimesGrows(m: nat, k: nat)
    ensures Times(0, k) == 0 && Times(m + 1, k) == Times(m, k) + k
  {
  }

  lemma {:induction false} RoundsAreShort<T>(qs: seq<seq<T>>, m: nat)
    ensures |Rounds(qs, m)| <= Times(m, |qs|)
  {
    hide Times;
    if m == 0 {
      TimesGrows(0, |qs|);
    } else {
      RoundsAreShort(qs, m - 1);
      RoundIsShort(qs, m - 1, |qs|);
      TimesGrows(m - 1, |qs|);
    }
  }

  lemma {:induction false} EarlyRoundsFirst<T>(qs: seq<seq<T>>, m: nat, n: nat)
    requires m <= n
    ensures Rounds(qs, m) <= Rounds(qs, n)
  {
    if m == n {
    } else {
      EarlyRoundsFirst(qs, m, n - 1);
    }
  }

  lemma {:induction false} OfGrows(s: seq<Passage>, unknown: Name, name: Name, m: nat, n: nat)
    requires m <= n <= |s|
    ensures |Of(s, unknown, name, m)| <= |Of(s, unknown, name, n)|
  {
    if m == n {
    } else {
      OfGrows(s, unknown, name, m, n - 1);
    }
  }

  /**
   Fair shares: when the first K passages have room for `m` from each of the R retrievers (so
   for `m` up to K / R), every retriever has at least `m` of them, or all it found.
   */
  lemma {:induction false} FairShares(s: seq<Passage>, unknown: Name, K: nat, m: nat, name: Name)
    requires K <= |s| && name in Names(s, unknown, |s|) && m * |Names(s, unknown, |s|)| <= K
    ensures |Interleaved(s, unknown)| == |s|
    ensures |Of(Interleaved(s, unknown), unknown, name, K)| >= Min(|AllOf(s, unknown, name)|, m)
  {
    SameLength(s, unknown);
    var out, qs, names := Interleaved(s, unknown), Queues(s, unknown), Names(s, unknown, |s|);
    var i :| 0 <= i < |names| && names[i] == name;
    FactorFits(m, |names|, K);
    RoundsAreShort(qs, m);
    EarlyRoundsFirst(qs, m, |s|);
    QueuesAreSorted(s, unknown);
    OfRounds(qs, names, unknown, m, i);
    var head := Rounds(qs, m);
    assert out == head + out[|head|..];
    OfPrefix(head, out[|head|..], unknown, name, |head|);
    OfGrows(out, unknown, name, |head|, K);
  }

  lemma {:induction false} FactorFits(m: nat, r: nat, k: nat)
    requires r > 0 && m * r <= k
    ensures m <= k
  {
    assert m * r == m + m * (r - 1);
  }

  /** The first round is one passage per retriever, so the names keep their order. */
  lemma {:induction false} FirstRoundNames(qs: seq<seq<Passage>>, names: seq<Name>, unknown: Name, k: nat)
    requires Sorted(qs, names, unknown) && k <= |qs| && forall i :: 0 <= i < |qs| ==> qs[i] != []
    ensures |Round(qs, 0, k)| == k && Names(Round(qs, 0, k), unknown, k) == names[..k]
  {
    if k == 0 {
    } else {
      FirstRoundNames(qs, names, unknown, k - 1);
      var before := Round(qs, 0, k - 1);
      NamesPrefix(before, [qs[k - 1][0]], unknown, k - 1);
      assert Belongs(qs[k - 1], names[k - 1], unknown);
      assert names[k - 1] !in names[..k - 1];
      assert names[..k] == names[..k - 1] + [names[k - 1]];
    }
  }

  lemma {:induction false} NamesPrefix(a: seq<Passage>, b: seq<Passage>, unknown: Name, n: nat)
    requires n <= |a|
    ensures Names(a + b, unknown, n) == Names(a, unknown, n)
  {
    if n == 0 {
    } else {
      NamesPrefix(a, b, unknown, n - 1);
    }
  }

  lemma {:induction false} NoNewNames(s: seq<Passage>, unknown: Name, m: nat, n: nat)
    requires m <= n <= |s|
    requires forall i :: m <= i < n ==> Key(s[i], unknown) in Names(s, unknown, m)
    ensures Names(s, unknown, n) == Names(s, unknown, m)
  {
    if m == n {
    } else {
      NoNewNames(s, unknown, m, n - 1);
    }
  }

  lemma {:induction false} KeysAreNames(s: seq<Passage>, unknown: Name, i: nat, n: nat)
    requires i < n <= |s|
    ensures Key(s[i], unknown) in Names(s, unknown, n)
  {
    if i == n - 1 {
    } else {
      KeysAreNames(s, unknown, i, n - 1);
    }
  }

  lemma {:induction false} SameLength(s: seq<Passage>, unknown: Name)
    ensures |Interleaved(s, unknown)| == |s|
  {
    IsPermutation(s, unknown);
    assert |multiset(Interleaved(s, unknown))| == |multiset(s)|;
  }

  lemma {:induction false} NoStrangers(s: seq<Passage>, unknown: Name, i: nat)
    requires i < |Interleaved(s, unknown)|
    ensures Key(Interleaved(s, unknown)[i], unknown) in Names(s, unknown, |s|)
  {
    var out := Interleaved(s, unknown);
    IsPermutation(s, unknown);
    assert out[i] in multiset(out);
    var j :| 0 <= j < |s| && s[j] == out[i];
    KeysAreNames(s, unknown, j, |s|);
  }

  lemma {:induction false} FirstRoundLeads(s: seq<Passage>, unknown: Name)
    requires s != []
    ensures var names, out := Names(s, unknown, |s|), Interleaved(s, unknown);
            |names| <= |out| && Names(out, unknown, |names|) == names
  {
    var out, qs, names := Interleaved(s, unknown), Queues(s, unknown), Names(s, unknown, |s|);
    QueuesAreSorted(s, unknown);
    forall i | 0 <= i < |qs| ensures qs[i] != [] {
      OfBound(s, unknown, names[i], |s|);
    }
    FirstRoundNames(qs, names, unknown, |qs|);
    EarlyRoundsFirst(qs, 1, |s|);
    var head := Rounds(qs, 1);
    assert head == Rounds(qs, 0) + Round(qs, 0, |qs|) == Round(qs, 0, |qs|);
    assert out == head + out[|head|..];
    NamesPrefix(head, out[|head|..], unknown, |head|);
    assert names[..|qs|] == names;
  }

  lemma {:induction false} SameNames(s: seq<Passage>, unknown: Name)
    ensures var out := Interleaved(s, unknown); Names(out, unknown, |out|) == Names(s, unknown, |s|)
  {
    var out, names := Interleaved(s, unknown), Names(s, unknown, |s|);
    SameLength(s, unknown);
    if s != [] {
      FirstRoundLeads(s, unknown);
      forall i | |names| <= i < |out| ensures Key(out[i], unknown) in names {
        NoStrangers(s, unknown, i);
      }
      hide Interleaved;
      NoNewNames(out, unknown, |names|, |out|);
    }
  }

  /** Interleaving twice is interleaving once, so reflexion loops do not shuffle what is settled. */
  lemma {:induction false} IsIdempotent(s: seq<Passage>, unknown: Name)
    ensures Interleaved(Interleaved(s, unknown), unknown) == Interleaved(s, unknown)
  {
    var out, names := Interleaved(s, unknown), Names(s, unknown, |s|);
    SameNames(s, unknown);
    SameLength(s, unknown);
    forall i | 0 <= i < |names| ensures AllOf(out, unknown, names[i]) == AllOf(s, unknown, names[i]) {
      KeepsEachOrder(s, unknown, names[i]);
    }
    assert Queues(out, unknown) == Queues(s, unknown);
  }

  // ----- the order itself, without queues and rounds -----

  /** How many passages of the same retriever come before place `i`. */
  ghost function Rank(s: seq<Passage>, unknown: Name, i: nat): nat
    requires i < |s|
  {
    |EarlierOf(s, unknown, Key(s[i], unknown), i)|
  }

  ghost function EarlierOf(s: seq<Passage>, unknown: Name, name: Name, n: nat): set<nat> {
    set k: nat | k < n && k < |s| && Key(s[k], unknown) == name
  }

  /** Retriever `a` is in the list before the first passage of `b`. */
  ghost predicate SeenFirst(s: seq<Passage>, unknown: Name, a: Name, b: Name) {
    exists k :: 0 <= k < |s| && Key(s[k], unknown) == a && forall m :: 0 <= m <= k ==> Key(s[m], unknown) != b
  }

  ghost predicate HasTurnBefore(s: seq<Passage>, unknown: Name, i: nat, j: nat)
    requires i < |s| && j < |s|
  {
    || Rank(s, unknown, i) < Rank(s, unknown, j)
    || (Rank(s, unknown, i) == Rank(s, unknown, j) && SeenFirst(s, unknown, Key(s[i], unknown), Key(s[j], unknown)))
  }

  lemma {:induction false} OfCountsEarlier(s: seq<Passage>, unknown: Name, name: Name, n: nat)
    requires n <= |s|
    ensures |Of(s, unknown, name, n)| == |EarlierOf(s, unknown, name, n)|
  {
    if n == 0 {
    } else {
      OfCountsEarlier(s, unknown, name, n - 1);
      var before, now := EarlierOf(s, unknown, name, n - 1), EarlierOf(s, unknown, name, n);
      if Key(s[n - 1], unknown) == name {
        assert now == before + {n - 1};
      } else {
        assert now == before;
      }
    }
  }

  lemma {:induction false} NamesGrow(s: seq<Passage>, unknown: Name, m: nat, n: nat)
    requires m <= n <= |s|
    ensures Names(s, unknown, m) <= Names(s, unknown, n)
  {
    if m == n {
    } else {
      NamesGrow(s, unknown, m, n - 1);
    }
  }

  lemma {:induction false} OfGoesOn(s: seq<Passage>, unknown: Name, name: Name, m: nat, n: nat)
    requires m <= n <= |s|
    ensures Of(s, unknown, name, m) <= Of(s, unknown, name, n)
  {
    if m == n {
    } else {
      OfGoesOn(s, unknown, name, m, n - 1);
    }
  }

  /** Where the p-th retriever is first seen. */
  lemma {:induction false} FirstSight(s: seq<Passage>, unknown: Name, n: nat, p: nat) returns (k: nat)
    requires n <= |s| && p < |Names(s, unknown, n)|
    ensures k < n && Key(s[k], unknown) == Names(s, unknown, n)[p]
    ensures Names(s, unknown, k + 1) == Names(s, unknown, n)[..p + 1]
  {
    if p < |Names(s, unknown, n - 1)| {
      k := FirstSight(s, unknown, n - 1, p);
      NamesGrow(s, unknown, n - 1, n);
    } else {
      k := n - 1;
    }
  }

  lemma {:induction false} NamesAreByFirstSight(s: seq<Passage>, unknown: Name, p: nat, q: nat)
    requires p < |Names(s, unknown, |s|)| && q < |Names(s, unknown, |s|)|
    ensures SeenFirst(s, unknown, Names(s, unknown, |s|)[p], Names(s, unknown, |s|)[q]) <==> p < q
  {
    var names := Names(s, unknown, |s|);
    NamesAreDistinct(s, unknown, |s|);
    if p < q {
      var k := FirstSight(s, unknown, |s|, p);
      forall m | 0 <= m <= k ensures Key(s[m], unknown) != names[q] {
        KeysAreNames(s, unknown, m, k + 1);
      }
    } else if q < p {
      var first := FirstSight(s, unknown, |s|, q);
      forall k | 0 <= k < |s| && Key(s[k], unknown) == names[p] ensures first < k {
        if k <= first {
          KeysAreNames(s, unknown, k, first + 1);
          assert false;
        }
      }
    }
  }

  /** Where round `r` serves the q-th queue. */
  ghost function Slot<T>(qs: seq<seq<T>>, r: nat, q: nat): nat
    requires q < |qs|
  {
    |Rounds(qs, r)| + |Round(qs, r, q)|
  }

  lemma {:induction false} EarlyQueuesFirst<T>(qs: seq<seq<T>>, r: nat, k: nat, n: nat)
    requires k <= n <= |qs|
    ensures Round(qs, r, k) <= Round(qs, r, n)
  {
    if k == n {
    } else {
      EarlyQueuesFirst(qs, r, k, n - 1);
    }
  }

  lemma {:induction false} Serves<T>(qs: seq<seq<T>>, r: nat, q: nat, n: nat)
    requires q < |qs| && r < |qs[q]| && r < n
    ensures Slot(qs, r, q) < |Rounds(qs, r + 1)| && Slot(qs, r, q) < |Rounds(qs, n)|
    ensures Rounds(qs, n)[Slot(qs, r, q)] == qs[q][r]
  {
    var done, now := Rounds(qs, r), Round(qs, r, |qs|);
    EarlyQueuesFirst(qs, r, q + 1, |qs|);
    assert Round(qs, r, q + 1) == Round(qs, r, q) + [qs[q][r]];
    assert now[|Round(qs, r, q)|] == qs[q][r];
    NextRound(qs, r);
    EarlyRoundsFirst(qs, r + 1, n);
  }

  lemma {:induction false} ServesInOrder<T>(qs: seq<seq<T>>, r: nat, q: nat, r': nat, q': nat)
    requires q < |qs| && q' < |qs| && r < |qs[q]|
    requires r < r' || (r == r' && q < q')
    ensures Slot(qs, r, q) < Slot(qs, r', q')
  {
    if r == r' {
      EarlyQueuesFirst(qs, r, q + 1, q');
    } else {
      Serves(qs, r, q, r + 1);
      EarlyRoundsFirst(qs, r + 1, r');
    }
  }

  /** The queue that the passage at place `i` waits in, and its slot. */
  lemma {:induction false} Waits(s: seq<Passage>, unknown: Name, i: nat) returns (q: nat)
    requires i < |s|
    ensures q < |Queues(s, unknown)| == |Names(s, unknown, |s|)|
    ensures Names(s, unknown, |s|)[q] == Key(s[i], unknown)
    ensures Rank(s, unknown, i) < |Queues(s, unknown)[q]| && Rank(s, unknown, i) < |s|
    ensures Queues(s, unknown)[q][Rank(s, unknown, i)] == s[i]
  {
    var name := Key(s[i], unknown);
    KeysAreNames(s, unknown, i, |s|);
    q :| 0 <= q < |Names(s, unknown, |s|)| && Names(s, unknown, |s|)[q] == name;
    OfCountsEarlier(s, unknown, name, i);
    OfGoesOn(s, unknown, name, i + 1, |s|);
    OfBound(s, unknown, name, i);
  }

  /**
   The order that results, place by place: passages take turns by their rank within their own
   retriever, and at equal rank by which retriever was seen first.
   */
  lemma {:induction false} TurnsByRank(s: seq<Passage>, unknown: Name) returns (places: seq<nat>)
    ensures |places| == |s| == |Interleaved(s, unknown)|
    ensures forall i :: 0 <= i < |s| ==> places[i] < |s| && Interleaved(s, unknown)[places[i]] == s[i]
    ensures forall i, j :: 0 <= i < |s| && 0 <= j < |s| ==> (places[i] < places[j] <==> HasTurnBefore(s, unknown, i, j))
    ensures forall i, j :: 0 <= i < j < |s| ==> places[i] != places[j]
  {
    hide *;
    var waits;
    places, waits := PlacesOf(s, unknown, |s|);
    SameLength(s, unknown);
    forall i, j | 0 <= i < |s| && 0 <= j < |s|
      ensures places[i] < places[j] <==> HasTurnBefore(s, unknown, i, j)
      ensures i != j ==> places[i] != places[j]
    {
      TurnsAre(s, unknown, i, waits[i], places[i], j, waits[j], places[j]);
    }
  }

  lemma {:induction false} PlacesOf(s: seq<Passage>, unknown: Name, n: nat) returns (places: seq<nat>, waits: seq<nat>)
    requires n <= |s|
    ensures |places| == |waits| == n
    ensures forall i :: 0 <= i < n ==>
              InPlace(s, unknown, i, waits[i], places[i]) && places[i] < |Interleaved(s, unknown)|
              && Interleaved(s, unknown)[places[i]] == s[i]
  {
    hide *;
    places, waits := [], [];
    if n > 0 {
      places, waits := PlacesOf(s, unknown, n - 1);
      var q, place := PlaceOf(s, unknown, n - 1);
      places, waits := places + [place], waits + [q];
    }
  }

  lemma {:induction false} PlaceOf(s: seq<Passage>, unknown: Name, i: nat) returns (q: nat, place: nat)
    requires i < |s|
    ensures InPlace(s, unknown, i, q, place) && place < |Interleaved(s, unknown)|
    ensures Interleaved(s, unknown)[place] == s[i]
  {
    q := Waits(s, unknown, i);
    Serves(Queues(s, unknown), Rank(s, unknown, i), q, |s|);
    place := Slot(Queues(s, unknown), Rank(s, unknown, i), q);
  }

  ghost predicate InPlace(s: seq<Passage>, unknown: Name, i: nat, q: nat, place: nat)
    requires i < |s|
  {
    var qs, names, r := Queues(s, unknown), Names(s, unknown, |s|), Rank(s, unknown, i);
    && q < |qs| == |names| && names[q] == Key(s[i], unknown) && r < |qs[q]| && qs[q][r] == s[i]
    && place == Slot(qs, r, q) < |Interleaved(s, unknown)| && Interleaved(s, unknown)[place] == s[i]
  }

  lemma {:induction false} TurnsAre(s: seq<Passage>, unknown: Name, i: nat, q: nat, p: nat, j: nat, q': nat, p': nat)
    requires i < |s| && j < |s| && InPlace(s, unknown, i, q, p) && InPlace(s, unknown, j, q', p')
    ensures p < p' <==> HasTurnBefore(s, unknown, i, j)
    ensures i != j ==> p != p'
  {
    var qs, r, r' := Queues(s, unknown), Rank(s, unknown, i), Rank(s, unknown, j);
    NamesAreByFirstSight(s, unknown, q, q');
    hide Queues, Rank, SeenFirst, Interleaved;
    if r < r' || (r == r' && q < q') {
      ServesInOrder(qs, r, q, r', q');
    } else if r' < r || q' < q {
      ServesInOrder(qs, r', q', r, q);
    } else if i < j {
      RanksRise(s, unknown, i, j);
    } else if j < i {
      RanksRise(s, unknown, j, i);
    }
  }

  lemma {:induction false} RanksRise(s: seq<Passage>, unknown: Name, i: nat, j: nat)
    requires i < j < |s| && Key(s[i], unknown) == Key(s[j], unknown)
    ensures Rank(s, unknown, i) < Rank(s, unknown, j)
  {
    var name := Key(s[i], unknown);
    assert EarlierOf(s, unknown, name, i) + {i} <= EarlierOf(s, unknown, name, j);
    SubsetSize(EarlierOf(s, unknown, name, i) + {i}, EarlierOf(s, unknown, name, j));
  }
}
