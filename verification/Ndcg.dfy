/**
 Normalised discounted cumulative gain (docs/Eval/evaluate.py).  A run of document ids is
 scored against a grade map; `Gains` is the graded run with repeats removed and `Ideal`
 the grades of the map from best to worst.
 */
module Ndcg {
  import opened Common

  type Doc(==, !new)

  /** The first `n` retrieved documents, each at its first occurrence. */
  ghost function FirstSeen(retrieved: seq<Doc>, n: nat): seq<Doc>
    requires n <= |retrieved|
  {
    if n == 0 then []
    else
      var before := FirstSeen(retrieved, n - 1);
      if retrieved[n - 1] in before then before else before + [retrieved[n - 1]]
  }

  /** The grade at a position, 0 past the end and for documents without a grade. */
  ghost function At(docs: seq<Doc>, relevance: map<Doc, nat>, i: nat): nat {
    if i < |docs| then GetOr(relevance, docs[i], 0) else 0
  }

  /** The discounted sum of the first `n` grades. */
  ghost function Dcg(docs: seq<Doc>, relevance: map<Doc, nat>, discount: nat -> real, n: nat): real {
    if n == 0 then 0.0
    else Dcg(docs, relevance, discount, n - 1) + At(docs, relevance, n - 1) as real * discount(n - 1)
  }

  ghost function Sum(docs: seq<Doc>, relevance: map<Doc, nat>, n: nat): nat {
    if n == 0 then 0 else Sum(docs, relevance, n - 1) + At(docs, relevance, n - 1)
  }

  /** Rank discounts are positive and do not grow; 1 / log2(rank + 2) is one. */
  ghost predicate Discount(discount: nat -> real) {
    (forall r: nat :: discount(r) > 0.0) && forall r: nat, q: nat :: r < q ==> discount(q) <= discount(r)
  }

  ghost predicate StrictDiscount(discount: nat -> real) {
    (forall r: nat :: discount(r) > 0.0) && forall r: nat, q: nat :: r < q ==> discount(q) < discount(r)
  }

  /** The documents a run is credited for. */
  ghost function Run(retrieved: seq<Doc>): seq<Doc> {
    FirstSeen(retrieved, |retrieved|)
  }

  /** `dcg_at_k`: at most `k` distinct documents count. */
  method DcgAtK(retrieved: seq<Doc>, relevance: map<Doc, nat>, k: int, discount: nat -> real) returns (score: real)
    ensures score == Score(retrieved, relevance, discount, k)
  {
    score := 0.0;
    var seen: set<Doc> := {};
    var rank := 0;
    var i := 0;
    assert Credited(retrieved, relevance, discount, k, i, seen, rank, score);
    hide *;
    while i < |retrieved|
      invariant i <= |retrieved| && Credited(retrieved, relevance, discount, k, i, seen, rank, score)
    {
      var doc := retrieved[i];
      CreditOne(retrieved, relevance, discount, k, i, seen, rank, score);
      if doc !in seen {
        seen := seen + {doc};
        if rank >= k {
          return;
        }
        score := score + GetOr(relevance, doc, 0) as real * discount(rank);
        rank := rank + 1;
      }
      i := i + 1;
    }
    AllCredited(retrieved, relevance, discount, k, seen, rank, score);
  }

  /** The state of the loop once the first `i` documents were looked at. */
  ghost predicate Credited(retrieved: seq<Doc>, relevance: map<Doc, nat>, discount: nat -> real, k: int, i: nat,
                           seen: set<Doc>, rank: nat, score: real)
    requires i <= |retrieved|
  {
    && (forall d :: d in seen <==> d in FirstSeen(retrieved, i))
    && rank == |FirstSeen(retrieved, i)| && rank <= Clip(k)
    && score == Dcg(Run(retrieved), relevance, discount, rank)
  }

  lemma {:induction false} CreditOne(retrieved: seq<Doc>, relevance: map<Doc, nat>, discount: nat -> real, k: int,
                                     i: nat, seen: set<Doc>, rank: nat, score: real)
    requires i < |retrieved| && Credited(retrieved, relevance, discount, k, i, seen, rank, score)
    ensures retrieved[i] in seen ==> Credited(retrieved, relevance, discount, k, i + 1, seen, rank, score)
    ensures retrieved[i] !in seen && rank >= k ==> score == Score(retrieved, relevance, discount, k)
    ensures retrieved[i] !in seen && rank < k ==>
              Credited(retrieved, relevance, discount, k, i + 1, seen + {retrieved[i]}, rank + 1,
                       score + GetOr(relevance, retrieved[i], 0) as real * discount(rank))
  {
    FirstSeenGrows(retrieved, i + 1, |retrieved|);
  }

  lemma {:induction false} AllCredited(retrieved: seq<Doc>, relevance: map<Doc, nat>, discount: nat -> real, k: int,
                                       seen: set<Doc>, rank: nat, score: real)
    requires Credited(retrieved, relevance, discount, k, |retrieved|, seen, rank, score)
    ensures score == Score(retrieved, relevance, discount, k)
  {
    NothingPastTheEnd(Run(retrieved), relevance, discount, rank, Clip(k));
  }

  lemma {:induction false} FirstSeenGrows(retrieved: seq<Doc>, i: nat, n: nat)
    requires i <= n <= |retrieved|
    ensures FirstSeen(retrieved, i) <= FirstSeen(retrieved, n)
  {
    if i == n {
    } else {
      FirstSeenGrows(retrieved, i, n - 1);
    }
  }

  lemma {:induction false} NothingPastTheEnd(s: seq<Doc>, relevance: map<Doc, nat>, discount: nat -> real, m: nat,
                                             n: nat)
    requires |s| <= m <= n
    ensures Dcg(s, relevance, discount, n) == Dcg(s, relevance, discount, m)
  {
    if m == n {
    } else {
      NothingPastTheEnd(s, relevance, discount, m, n - 1);
    }
  }

  // ------------------------------------------------------------ the ideal

  /** Every graded document once, best grade first; its grades are `sorted(relevance.values(), reverse=True)`. */
  ghost predicate IsRanking(order: seq<Doc>, relevance: map<Doc, nat>) {
    && (forall d :: d in order <==> d in relevance)
    && (forall i, j :: 0 <= i < j < |order| ==> order[i] != order[j] && relevance[order[i]] >= relevance[order[j]])
  }

  method Rank(relevance: map<Doc, nat>) returns (order: seq<Doc>)
    ensures IsRanking(order, relevance)
  {
    order := [];
    var rest := relevance;
    while rest != map[]
      invariant forall d :: d in rest ==> d in relevance && rest[d] == relevance[d] && d !in order
      invariant forall d :: d in order || d in rest <==> d in relevance
      invariant forall i, j :: 0 <= i < j < |order| ==>
                order[i] != order[j] && relevance[order[i]] >= relevance[order[j]]
      invariant forall i, d :: 0 <= i < |order| && d in rest ==> relevance[order[i]] >= rest[d]
      decreases |rest|
    {
      var best :| best in rest;
      var todo := rest.Keys - {best};
      while todo != {}
        invariant todo <= rest.Keys && best in rest
        invariant forall d :: d in rest && d !in todo ==> rest[d] <= rest[best]
      {
        var d :| d in todo;
        if rest[d] > rest[best] {
          best := d;
        }
        todo := todo - {d};
      }
      assert forall i :: 0 <= i < |order| ==> order[i] in order;
      order := order + [best];
      rest := rest - {best};
    }
  }

  // ------------------------------------------------------------ no j documents beat the first j of a ranking

  ghost function SetSum(docs: set<Doc>, relevance: map<Doc, nat>): nat {
    if docs == {} then 0
    else
      var d :| d in docs;
      GetOr(relevance, d, 0) + SetSum(docs - {d}, relevance)
  }

  lemma {:induction false} SetSumSplit(docs: set<Doc>, relevance: map<Doc, nat>, d: Doc)
    requires d in docs
    ensures SetSum(docs, relevance) == GetOr(relevance, d, 0) + SetSum(docs - {d}, relevance)
    decreases docs
  {
    var first :| first in docs &&
                 SetSum(docs, relevance) == GetOr(relevance, first, 0) + SetSum(docs - {first}, relevance);
    if first != d {
      SetSumSplit(docs - {first}, relevance, d);
      SetSumSplit(docs - {d}, relevance, first);
      assert docs - {first} - {d} == docs - {d} - {first};
    }
  }

  ghost predicate NoRepeats(docs: seq<Doc>) {
    forall i, j :: 0 <= i < j < |docs| ==> docs[i] != docs[j]
  }

  ghost function Placed(docs: seq<Doc>, n: nat): (r: set<Doc>)
    requires n <= |docs|
    ensures |r| <= n
  {
    if n == 0 then {} else Placed(docs, n - 1) + {docs[n - 1]}
  }

  lemma {:induction false} PlacedHas(docs: seq<Doc>, n: nat, i: nat)
    requires i < n <= |docs|
    ensures docs[i] in Placed(docs, n)
  {
    if i == n - 1 {
    } else {
      PlacedHas(docs, n - 1, i);
    }
  }

  lemma {:induction false} PlacedOrigin(docs: seq<Doc>, n: nat, d: Doc) returns (i: nat)
    requires n <= |docs| && d in Placed(docs, n)
    ensures i < n && docs[i] == d
  {
    if docs[n - 1] == d {
      i := n - 1;
    } else {
      i := PlacedOrigin(docs, n - 1, d);
    }
  }

  lemma {:induction false} LastPlaced(docs: seq<Doc>, n: nat)
    requires 0 < n <= |docs| && NoRepeats(docs)
    ensures docs[n - 1] !in Placed(docs, n - 1) && Placed(docs, n) - {docs[n - 1]} == Placed(docs, n - 1)
  {
    if docs[n - 1] in Placed(docs, n - 1) {
      var i := PlacedOrigin(docs, n - 1, docs[n - 1]);
    }
  }

  lemma {:induction false} NextGrade(docs: seq<Doc>, relevance: map<Doc, nat>, i: nat)
    ensures Sum(docs, relevance, i + 1) ==
            Sum(docs, relevance, i) + (if i < |docs| then GetOr(relevance, docs[i], 0) else 0)
  {
  }

  lemma {:induction false} SumOfDistinct(docs: seq<Doc>, relevance: map<Doc, nat>, n: nat)
    requires n <= |docs| && NoRepeats(docs)
    ensures Sum(docs, relevance, n) == SetSum(Placed(docs, n), relevance)
  {
    if n == 0 {
    } else {
      LastPlaced(docs, n);
      assert docs[n - 1] in Placed(docs, n);
      hide *;
      SumOfDistinct(docs, relevance, n - 1);
      NextGrade(docs, relevance, n - 1);
      SetSumSplit(Placed(docs, n), relevance, docs[n - 1]);
    }
  }

  /** Any `j` documents sum to at most the first `j` of a ranking. */
  lemma {:induction false} TopIsBest(docs: set<Doc>, relevance: map<Doc, nat>, order: seq<Doc>, j: nat)
    requires IsRanking(order, relevance) && |docs| <= j
    ensures SetSum(docs, relevance) <= Sum(order, relevance, j)
    decreases j
  {
    if j == 0 {
      assert docs == {};
    } else {
      hide *;
      var front := Placed(order, Min(j - 1, |order|));
      NextGrade(order, relevance, j - 1);
      if docs <= front {
        SubsetSize(docs, front);
        TopIsBest(docs, relevance, order, j - 1);
      } else {
        var d :| d in docs && d !in front;
        SetSumSplit(docs, relevance, d);
        TopIsBest(docs - {d}, relevance, order, j - 1);
        OutsiderIsWorse(relevance, order, j - 1, d);
      }
    }
  }

  lemma {:induction false} OutsiderIsWorse(relevance: map<Doc, nat>, order: seq<Doc>, k: nat, d: Doc)
    requires IsRanking(order, relevance) && d !in Placed(order, Min(k, |order|))
    ensures GetOr(relevance, d, 0) <= At(order, relevance, k)
  {
    if d in relevance {
      assert d in order;
      var i :| 0 <= i < |order| && order[i] == d;
      if i < k {
        PlacedHas(order, Min(k, |order|), i);
      }
    }
  }

  lemma {:induction false} SumPastTheEnd(s: seq<Doc>, relevance: map<Doc, nat>, m: nat, n: nat)
    requires |s| <= m <= n
    ensures Sum(s, relevance, n) == Sum(s, relevance, m)
  {
    if m == n {
    } else {
      SumPastTheEnd(s, relevance, m, n - 1);
    }
  }

  /** Prefix by prefix, distinct documents gain no more than the ideal order. */
  lemma {:induction false} PrefixDominance(docs: seq<Doc>, relevance: map<Doc, nat>, order: seq<Doc>, n: nat)
    requires IsRanking(order, relevance) && NoRepeats(docs)
    ensures Sum(docs, relevance, n) <= Sum(order, relevance, n)
  {
    var m := Min(n, |docs|);
    SumOfDistinct(docs, relevance, m);
    TopIsBest(Placed(docs, m), relevance, order, n);
    if m < n {
      SumPastTheEnd(docs, relevance, m, n);
    }
  }

  /** All rankings of a grade map have the same grades in the same places. */
  lemma {:induction false} RankingsAgree(relevance: map<Doc, nat>, order: seq<Doc>, order': seq<Doc>, i: nat)
    requires IsRanking(order, relevance) && IsRanking(order', relevance)
    ensures At(order, relevance, i) == At(order', relevance, i)
  {
    hide At;
    PrefixDominance(order, relevance, order', i);
    PrefixDominance(order', relevance, order, i);
    PrefixDominance(order, relevance, order', i + 1);
    PrefixDominance(order', relevance, order, i + 1);
  }

  // ------------------------------------------------------------ the bound

  ghost function Times(x: real, y: real): real {
    x * y
  }

  /** One step of the summation by parts. */
  lemma {:induction false} LeadStep(lead: real, gap: real, step: real, d0: real, d1: real)
    requires lead >= Times(gap, d0) && gap >= 0.0 && gap + step >= 0.0 && d0 >= d1 > 0.0
    ensures lead + Times(step, d1) >= Times(gap, d0 - d1) + Times(gap + step, d1)
    ensures Times(gap, d0 - d1) >= 0.0 && Times(gap + step, d1) >= 0.0
  {
    assert (gap + step) * d1 == gap * d1 + step * d1;
    assert gap * (d0 - d1) == gap * d0 - gap * d1;
    NonNegative(gap, d0 - d1);
    NonNegative(gap + step, d1);
  }

  lemma {:induction false} NonNegative(x: real, y: real)
    requires x >= 0.0 && y >= 0.0
    ensures x * y >= 0.0 && (x > 0.0 && y > 0.0 ==> x * y > 0.0)
  {
  }

  lemma {:induction false} TieStep(lead: real, gap: real, step: real, d0: real, d1: real)
    requires lead >= Times(gap, d0) && gap >= 0.0 && gap + step >= 0.0 && d0 > d1 > 0.0
    requires lead + Times(step, d1) == 0.0
    ensures gap == 0.0 && step == 0.0 && lead == 0.0
  {
    LeadStep(lead, gap, step, d0, d1);
    NonNegative(gap, d0 - d1);
    NonNegative(gap + step, d1);
  }

  ghost function Gap(a: seq<Doc>, b: seq<Doc>, relevance: map<Doc, nat>, n: nat): real {
    Sum(b, relevance, n) as real - Sum(a, relevance, n) as real
  }

  /** Summation by parts: a lead in every prefix sum is a lead in the discounted sum. */
  lemma {:induction false} DiscountedLead(a: seq<Doc>, b: seq<Doc>, relevance: map<Doc, nat>, discount: nat -> real,
                                          n: nat)
    requires Discount(discount) && n > 0 && forall j :: 0 <= j <= n ==> Gap(a, b, relevance, j) >= 0.0
    ensures Dcg(b, relevance, discount, n) - Dcg(a, relevance, discount, n)
            >= Times(Gap(a, b, relevance, n), discount(n - 1)) >= 0.0
  {
    assert Gap(a, b, relevance, n) >= 0.0 && Gap(a, b, relevance, n - 1) >= 0.0;
    NextLead(a, b, relevance, discount, n);
    DiscountAt(discount, n - 1);
    if n > 1 {
      DiscountedLead(a, b, relevance, discount, n - 1);
    }
    FirstLead(a, b, relevance, discount);
    var lead := Dcg(b, relevance, discount, n - 1) - Dcg(a, relevance, discount, n - 1);
    var step := At(b, relevance, n - 1) as real - At(a, relevance, n - 1) as real;
    var d := if n > 1 then discount(n - 2) else discount(0);
    hide *;
    LeadStep(lead, Gap(a, b, relevance, n - 1), step, d, discount(n - 1));
  }

  lemma {:induction false} FirstLead(a: seq<Doc>, b: seq<Doc>, relevance: map<Doc, nat>, discount: nat -> real)
    ensures Gap(a, b, relevance, 0) == 0.0 && Dcg(a, relevance, discount, 0) == Dcg(b, relevance, discount, 0) == 0.0
    ensures forall d: real :: Times(0.0, d) == 0.0
  {
  }

  lemma {:induction false} DiscountAt(discount: nat -> real, r: nat)
    requires Discount(discount)
    ensures discount(r) > 0.0 && (r > 0 ==> discount(r - 1) >= discount(r))
  {
  }

  lemma {:induction false} NextLead(a: seq<Doc>, b: seq<Doc>, relevance: map<Doc, nat>, discount: nat -> real, n: nat)
    requires n > 0
    ensures var step := At(b, relevance, n - 1) as real - At(a, relevance, n - 1) as real;
            && Gap(a, b, relevance, n) == Gap(a, b, relevance, n - 1) + step
            && Dcg(b, relevance, discount, n) - Dcg(a, relevance, discount, n) ==
               Dcg(b, relevance, discount, n - 1) - Dcg(a, relevance, discount, n - 1) + Times(step, discount(n - 1))
  {
  }

  /** With a strict discount the discounted sums agree only if the values agree. */
  lemma {:induction false} DiscountedTie(a: seq<Doc>, b: seq<Doc>, relevance: map<Doc, nat>, discount: nat -> real,
                                         n: nat)
    requires StrictDiscount(discount) && forall j :: 0 <= j <= n ==> Gap(a, b, relevance, j) >= 0.0
    requires Dcg(a, relevance, discount, n) == Dcg(b, relevance, discount, n)
    ensures forall i :: 0 <= i < n ==> At(a, relevance, i) == At(b, relevance, i)
  {
    if n == 0 {
    } else {
      LastTie(a, b, relevance, discount, n);
      DiscountedTie(a, b, relevance, discount, n - 1);
    }
  }

  lemma {:induction false} LastTie(a: seq<Doc>, b: seq<Doc>, relevance: map<Doc, nat>, discount: nat -> real, n: nat)
    requires StrictDiscount(discount) && n > 0 && forall j :: 0 <= j <= n ==> Gap(a, b, relevance, j) >= 0.0
    requires Dcg(a, relevance, discount, n) == Dcg(b, relevance, discount, n)
    ensures At(a, relevance, n - 1) == At(b, relevance, n - 1)
    ensures Dcg(a, relevance, discount, n - 1) == Dcg(b, relevance, discount, n - 1)
  {
    assert Gap(a, b, relevance, n) >= 0.0 && Gap(a, b, relevance, n - 1) >= 0.0;
    NextLead(a, b, relevance, discount, n);
    DiscountAt(discount, n - 1);
    assert n > 1 ==> discount(n - 2) > discount(n - 1);
    if n > 1 {
      DiscountedLead(a, b, relevance, discount, n - 1);
    }
    FirstLead(a, b, relevance, discount);
    var lead := Dcg(b, relevance, discount, n - 1) - Dcg(a, relevance, discount, n - 1);
    var step := At(b, relevance, n - 1) as real - At(a, relevance, n - 1) as real;
    var d := if n > 1 then discount(n - 2) else discount(0) + 1.0;
    hide *;
    TieStep(lead, Gap(a, b, relevance, n - 1), step, d, discount(n - 1));
  }

  lemma {:induction false} DcgOfEqualValues(a: seq<Doc>, b: seq<Doc>, relevance: map<Doc, nat>,
                                            discount: nat -> real, n: nat)
    requires forall i :: 0 <= i < n ==> At(a, relevance, i) == At(b, relevance, i)
    ensures Dcg(a, relevance, discount, n) == Dcg(b, relevance, discount, n)
  {
    if n == 0 {
    } else {
      DcgOfEqualValues(a, b, relevance, discount, n - 1);
    }
  }

  ghost function Clip(k: int): nat {
    if k < 0 then 0 else k
  }

  /** The ideal DCG: the discounted sum of `sorted(...)[:k]`. */
  ghost function IdealDcg(relevance: map<Doc, nat>, order: seq<Doc>, discount: nat -> real, k: int): real {
    Dcg(order, relevance, discount, |Take(order, k)|)
  }

  ghost function NdcgOf(retrieved: seq<Doc>, relevance: map<Doc, nat>, order: seq<Doc>, k: int,
                        discount: nat -> real): real {
    var best := IdealDcg(relevance, order, discount, k);
    if best > 0.0 then Dcg(Run(retrieved), relevance, discount, Clip(k)) / best else 0.0
  }

  /**
   What an nDCG is, whichever best-first list of the graded documents is taken for the ideal: the
   quotient, which is the score of the list in units of the ideal's, and a number from 0 to 1.
   */
  ghost predicate IsNdcg(retrieved: seq<Doc>, relevance: map<Doc, nat>, k: int, discount: nat -> real, ndcg: real) {
    && (forall order :: IsRanking(order, relevance) ==> ndcg == NdcgOf(retrieved, relevance, order, k, discount))
    && (forall order :: IsRanking(order, relevance) && k >= 0 && Score(order, relevance, discount, k) > 0.0 ==>
          ndcg * Score(order, relevance, discount, k) == Score(retrieved, relevance, discount, k))
    && (k < 0 ==> ndcg == 0.0)
    && (Discount(discount) ==> 0.0 <= ndcg <= 1.0)
  }

  /** `ndcg_at_k`. */
  method NdcgAtK(retrieved: seq<Doc>, relevance: map<Doc, nat>, k: int, discount: nat -> real) returns (ndcg: real)
    ensures IsNdcg(retrieved, relevance, k, discount, ndcg)
  {
    hide *;
    var actual := DcgAtK(retrieved, relevance, k, discount);
    var sorted := Rank(relevance);
    var kept := Take(sorted, k);
    var ideal := 0.0;
    NothingRetrieved(relevance, discount, 0);
    for i := 0 to |kept|
      invariant ideal == Dcg(sorted, relevance, discount, i)
    {
      NextIdeal(sorted, relevance, discount, i);
      ideal := ideal + GetOr(relevance, kept[i], 0) as real * discount(i);
    }
    ndcg := if ideal > 0.0 then actual / ideal else 0.0;
    QuotientIs(retrieved, relevance, sorted, k, discount);
    WhicheverOrder(retrieved, relevance, sorted, k, discount);
  }

  lemma {:induction false} NextIdeal(order: seq<Doc>, relevance: map<Doc, nat>, discount: nat -> real, i: nat)
    requires i < |order|
    ensures Dcg(order, relevance, discount, i + 1) ==
            Dcg(order, relevance, discount, i) + GetOr(relevance, order[i], 0) as real * discount(i)
  {
  }

  lemma {:induction false} QuotientIs(retrieved: seq<Doc>, relevance: map<Doc, nat>, order: seq<Doc>, k: int,
                                      discount: nat -> real)
    ensures var best := Dcg(order, relevance, discount, |Take(order, k)|);
            NdcgOf(retrieved, relevance, order, k, discount) ==
            if best > 0.0 then Score(retrieved, relevance, discount, k) / best else 0.0
  {
  }

  lemma {:induction false} WhicheverOrder(retrieved: seq<Doc>, relevance: map<Doc, nat>, sorted: seq<Doc>, k: int,
                                          discount: nat -> real)
    requires IsRanking(sorted, relevance)
    ensures IsNdcg(retrieved, relevance, k, discount, NdcgOf(retrieved, relevance, sorted, k, discount))
  {
    hide NdcgOf, IsRanking, Score, Discount;
    var ndcg := NdcgOf(retrieved, relevance, sorted, k, discount);
    forall order | IsRanking(order, relevance)
      ensures ndcg == NdcgOf(retrieved, relevance, order, k, discount)
      ensures k >= 0 && Score(order, relevance, discount, k) > 0.0 ==>
                ndcg * Score(order, relevance, discount, k) == Score(retrieved, relevance, discount, k)
    {
      RankingDoesNotMatter(retrieved, relevance, sorted, order, k, discount);
      if k >= 0 {
        NdcgIsTheQuotient(retrieved, relevance, order, k, discount);
      }
    }
    if Discount(discount) {
      NdcgIsNormalised(retrieved, relevance, sorted, k, discount);
    }
    if k < 0 {
      NoCutOff(retrieved, relevance, sorted, k, discount);
    }
  }

  lemma {:induction false} NoCutOff(retrieved: seq<Doc>, relevance: map<Doc, nat>, order: seq<Doc>, k: int,
                                    discount: nat -> real)
    requires k < 0
    ensures NdcgOf(retrieved, relevance, order, k, discount) == 0.0
  {
  }

  /** Which ranking the sort finds does not matter. */
  lemma {:induction false} RankingDoesNotMatter(retrieved: seq<Doc>, relevance: map<Doc, nat>, order: seq<Doc>,
                                                order': seq<Doc>, k: int, discount: nat -> real)
    requires IsRanking(order, relevance) && IsRanking(order', relevance)
    ensures NdcgOf(retrieved, relevance, order, k, discount) == NdcgOf(retrieved, relevance, order', k, discount)
  {
    forall i: nat ensures At(order, relevance, i) == At(order', relevance, i) {
      RankingsAgree(relevance, order, order', i);
    }
    SameLength(relevance, order, order');
    DcgOfEqualValues(order, order', relevance, discount, |Take(order, k)|);
  }

  lemma {:induction false} SameLength(relevance: map<Doc, nat>, order: seq<Doc>, order': seq<Doc>)
    requires IsRanking(order, relevance) && IsRanking(order', relevance)
    ensures |order| == |order'|
  {
    PlacedAll(relevance, order);
    PlacedAll(relevance, order');
  }

  lemma {:induction false} PlacedAll(relevance: map<Doc, nat>, order: seq<Doc>)
    requires IsRanking(order, relevance)
    ensures |order| == |relevance.Keys|
  {
    PlacedCount(order, |order|);
    forall d ensures d in Placed(order, |order|) <==> d in relevance.Keys {
      if d in Placed(order, |order|) {
        var i := PlacedOrigin(order, |order|, d);
      }
      if d in order {
        var i :| 0 <= i < |order| && order[i] == d;
        PlacedHas(order, |order|, i);
      }
    }
    assert Placed(order, |order|) == relevance.Keys;
  }

  lemma {:induction false} PlacedCount(docs: seq<Doc>, n: nat)
    requires n <= |docs| && NoRepeats(docs)
    ensures |Placed(docs, n)| == n
  {
    if n == 0 {
    } else {
      PlacedCount(docs, n - 1);
      LastPlaced(docs, n);
    }
  }

  lemma {:induction false} FirstSeenDistinct(retrieved: seq<Doc>, n: nat)
    requires n <= |retrieved|
    ensures NoRepeats(FirstSeen(retrieved, n))
  {
    if n == 0 {
    } else {
      FirstSeenDistinct(retrieved, n - 1);
      var before := FirstSeen(retrieved, n - 1);
      forall i | 0 <= i < |before| ensures before[i] in before {
      }
    }
  }

  lemma {:induction false} GainsNeverLead(retrieved: seq<Doc>, relevance: map<Doc, nat>, order: seq<Doc>)
    requires IsRanking(order, relevance)
    ensures forall n: nat :: Gap(Run(retrieved), order, relevance, n) >= 0.0
  {
    FirstSeenDistinct(retrieved, |retrieved|);
    forall n: nat ensures Gap(Run(retrieved), order, relevance, n) >= 0.0 {
      PrefixDominance(FirstSeen(retrieved, |retrieved|), relevance, order, n);
    }
  }

  lemma {:induction false} DcgNonNegative(s: seq<Doc>, relevance: map<Doc, nat>, discount: nat -> real, n: nat)
    requires Discount(discount)
    ensures Dcg(s, relevance, discount, n) >= 0.0
  {
    if n == 0 {
    } else {
      DcgNonNegative(s, relevance, discount, n - 1);
      assert At(s, relevance, n - 1) as real * discount(n - 1) >= 0.0;
    }
  }

  /** The ideal of `k` terms, whether or not there are `k` grades. */
  lemma {:induction false} IdealOfClip(relevance: map<Doc, nat>, order: seq<Doc>, discount: nat -> real, k: nat)
    ensures IdealDcg(relevance, order, discount, k) == Dcg(order, relevance, discount, k)
  {
    if |order| < k {
      NothingPastTheEnd(order, relevance, discount, |order|, k);
    }
  }

  /**
   nDCG lies in [0, 1] for every run, repeats included, every grade map and every cut-off:
   the first-occurrence rule keeps the actual DCG at or below the ideal.
   */
  lemma {:induction false} NdcgIsNormalised(retrieved: seq<Doc>, relevance: map<Doc, nat>, order: seq<Doc>, k: int,
                                            discount: nat -> real)
    requires IsRanking(order, relevance) && Discount(discount)
    ensures 0.0 <= NdcgOf(retrieved, relevance, order, k, discount) <= 1.0
  {
    var gains, best := Run(retrieved), IdealDcg(relevance, order, discount, k);
    var actual := Dcg(gains, relevance, discount, Clip(k));
    DcgNonNegative(gains, relevance, discount, Clip(k));
    if k > 0 {
      GainsNeverLead(retrieved, relevance, order);
      DiscountedLead(gains, order, relevance, discount, k);
      IdealOfClip(relevance, order, discount, k);
    }
    if best > 0.0 {
      UnitQuotient(actual, best);
    }
  }

  lemma {:induction false} UnitQuotient(x: real, y: real)
    requires y > 0.0 && 0.0 <= x <= y
    ensures 0.0 <= x / y <= 1.0 && (x / y == 1.0 <==> x == y)
  {
  }

  /**
   With a strictly falling discount, a run with something to find scores exactly 1 if and
   only if its first `k` distinct documents carry the grades of the ideal order.
   */
  lemma {:induction false} PerfectScore(retrieved: seq<Doc>, relevance: map<Doc, nat>, order: seq<Doc>, k: nat,
                                        discount: nat -> real)
    requires IsRanking(order, relevance) && StrictDiscount(discount) && IdealDcg(relevance, order, discount, k) > 0.0
    ensures NdcgOf(retrieved, relevance, order, k, discount) == 1.0 <==>
            forall i :: 0 <= i < k ==> At(Run(retrieved), relevance, i) == At(order, relevance, i)
  {
    var gains, ideal := Run(retrieved), order;
    IdealOfClip(relevance, order, discount, k);
    GainsNeverLead(retrieved, relevance, order);
    assert k > 0;
    assert Discount(discount);
    DiscountedLead(gains, ideal, relevance, discount, k);
    DcgNonNegative(gains, relevance, discount, k);
    UnitQuotient(Dcg(gains, relevance, discount, k), Dcg(ideal, relevance, discount, k));
    if Dcg(gains, relevance, discount, k) == Dcg(ideal, relevance, discount, k) {
      DiscountedTie(gains, ideal, relevance, discount, k);
    }
    if forall i :: 0 <= i < k ==> At(gains, relevance, i) == At(ideal, relevance, i) {
      DcgOfEqualValues(gains, ideal, relevance, discount, k);
    }
  }

  // ------------------------------------------------------------ what the scores are, over the lists themselves

  ghost function DocSet(docs: seq<Doc>): set<Doc> {
    set d | d in docs
  }

  lemma {:induction false} FirstSeenHas(retrieved: seq<Doc>, n: nat, d: Doc)
    requires n <= |retrieved|
    ensures d in FirstSeen(retrieved, n) <==> d in retrieved[..n]
  {
    if n == 0 {
    } else {
      FirstSeenHas(retrieved, n - 1, d);
      assert retrieved[..n] == retrieved[..n - 1] + [retrieved[n - 1]];
    }
  }

  lemma {:induction false} FirstSeenOrder(retrieved: seq<Doc>, n: nat, i: nat, j: nat) returns (a: nat)
    requires n <= |retrieved| && i < j < |FirstSeen(retrieved, n)|
    ensures a < n && retrieved[a] == FirstSeen(retrieved, n)[i]
    ensures forall b :: 0 <= b <= a ==> retrieved[b] != FirstSeen(retrieved, n)[j]
  {
    var before := FirstSeen(retrieved, n - 1);
    if j < |before| {
      a := FirstSeenOrder(retrieved, n - 1, i, j);
    } else {
      assert before[i] in before;
      FirstSeenHas(retrieved, n - 1, before[i]);
      FirstSeenHas(retrieved, n - 1, retrieved[n - 1]);
      a := PlaceOf(retrieved, n - 1, before[i]);
      hide FirstSeen;
      assert forall b :: 0 <= b < n - 1 ==> retrieved[b] == retrieved[..n - 1][b];
    }
  }

  lemma {:induction false} PlaceOf(docs: seq<Doc>, n: nat, d: Doc) returns (a: nat)
    requires n <= |docs| && d in docs[..n]
    ensures a < n && docs[a] == d
  {
    a :| 0 <= a < n && docs[..n][a] == d;
  }

  lemma {:induction false} NothingToDrop(retrieved: seq<Doc>, n: nat)
    requires n <= |retrieved| && NoRepeats(retrieved)
    ensures FirstSeen(retrieved, n) == retrieved[..n]
  {
    if n == 0 {
    } else {
      NothingToDrop(retrieved, n - 1);
      assert retrieved[..n] == retrieved[..n - 1] + [retrieved[n - 1]];
    }
  }

  /**
   The documents a run is credited for: exactly the retrieved ones, none twice, in the order of
   their first occurrence; the list itself when it repeats nothing.
   */
  lemma {:induction false} RunIsTheList(retrieved: seq<Doc>)
    ensures DocSet(Run(retrieved)) == DocSet(retrieved) && NoRepeats(Run(retrieved))
    ensures forall i, j :: 0 <= i < j < |Run(retrieved)| ==>
              ComesFirst(retrieved, Run(retrieved)[i], Run(retrieved)[j])
    ensures NoRepeats(retrieved) ==> Run(retrieved) == retrieved
  {
    var n := |retrieved|;
    assert retrieved[..n] == retrieved;
    forall d ensures d in Run(retrieved) <==> d in retrieved {
      FirstSeenHas(retrieved, n, d);
    }
    FirstSeenDistinct(retrieved, n);
    if NoRepeats(retrieved) {
      NothingToDrop(retrieved, n);
    }
    var run := Run(retrieved);
    hide FirstSeen;
    forall i, j | 0 <= i < j < |run| ensures ComesFirst(retrieved, run[i], run[j]) {
      var a := FirstSeenOrder(retrieved, n, i, j);
      assert run[j] !in retrieved[..a + 1];
    }
  }

  /** `d` occurs in the list before `d'` first does. */
  ghost predicate ComesFirst(retrieved: seq<Doc>, d: Doc, d': Doc) {
    exists a :: 0 <= a < |retrieved| && retrieved[a] == d && d' !in retrieved[..a + 1]
  }

  /** The DCG of a list at `k`. */
  ghost function Score(retrieved: seq<Doc>, relevance: map<Doc, nat>, discount: nat -> real, k: int): real {
    Dcg(Run(retrieved), relevance, discount, Clip(k))
  }

  lemma {:induction false} NothingRetrieved(relevance: map<Doc, nat>, discount: nat -> real, k: int)
    ensures Score([], relevance, discount, k) == 0.0
    ensures forall docs :: Dcg(docs, relevance, discount, 0) == 0.0
  {
    NothingPastTheEnd([], relevance, discount, 0, Clip(k));
  }

  /**
   One more document, which with `NothingRetrieved` settles every score: it adds its grade, discounted
   by how many documents came before it, unless it is a repetition or `k` of them did.
   */
  lemma {:induction false} OneMoreDocument(retrieved: seq<Doc>, d: Doc, relevance: map<Doc, nat>, discount: nat -> real,
                                           k: int)
    ensures var rank := |DocSet(retrieved)|;
            Score(retrieved + [d], relevance, discount, k) ==
            if d in retrieved || rank >= k then Score(retrieved, relevance, discount, k)
            else Score(retrieved, relevance, discount, k)
                 + (if d in relevance then relevance[d] else 0) as real * discount(rank)
  {
    var run, kk := Run(retrieved), Clip(k);
    RunGrows(retrieved, d);
    ClipIs(k);
    hide Run, Dcg, DocSet, Clip;
    DcgOneMore(run, d, relevance, discount, kk);
  }

  lemma {:induction false} ClipIs(k: int)
    ensures Clip(k) == if k < 0 then 0 else k
  {
  }

  lemma {:induction false} RunGrows(retrieved: seq<Doc>, d: Doc)
    ensures Run(retrieved + [d]) == if d in retrieved then Run(retrieved) else Run(retrieved) + [d]
    ensures |Run(retrieved)| == |DocSet(retrieved)|
  {
    FirstSeenPrefix(retrieved, d, |retrieved|);
    FirstSeenHas(retrieved, |retrieved|, d);
    assert retrieved[..|retrieved|] == retrieved;
    RunIsTheList(retrieved);
    AsLongAsItsSet(Run(retrieved));
  }

  lemma {:induction false} DcgOneMore(run: seq<Doc>, d: Doc, relevance: map<Doc, nat>, discount: nat -> real, k: nat)
    ensures Dcg(run + [d], relevance, discount, k) ==
            if |run| >= k then Dcg(run, relevance, discount, k)
            else Dcg(run, relevance, discount, k)
                 + (if d in relevance then relevance[d] else 0) as real * discount(|run|)
  {
    var rank := |run|;
    if rank >= k {
      SamePrefix(run, run + [d], relevance, discount, k);
    } else {
      SamePrefix(run, run + [d], relevance, discount, rank);
      NothingPastTheEnd(run, relevance, discount, rank, k);
      NothingPastTheEnd(run + [d], relevance, discount, rank + 1, k);
    }
  }

  lemma {:induction false} FirstSeenPrefix(retrieved: seq<Doc>, d: Doc, n: nat)
    requires n <= |retrieved|
    ensures FirstSeen(retrieved + [d], n) == FirstSeen(retrieved, n)
  {
    if n == 0 {
    } else {
      FirstSeenPrefix(retrieved, d, n - 1);
    }
  }

  lemma {:induction false} SamePrefix(a: seq<Doc>, b: seq<Doc>, relevance: map<Doc, nat>, discount: nat -> real, n: nat)
    requires n <= |a| && a <= b
    ensures Dcg(a, relevance, discount, n) == Dcg(b, relevance, discount, n)
  {
    DcgOfEqualValues(a, b, relevance, discount, n);
  }

  lemma {:induction false} AsLongAsItsSet(docs: seq<Doc>)
    requires NoRepeats(docs)
    ensures |DocSet(docs)| == |docs|
  {
    PlacedCount(docs, |docs|);
    forall d ensures d in Placed(docs, |docs|) <==> d in docs {
      if d in Placed(docs, |docs|) {
        var i := PlacedOrigin(docs, |docs|, d);
      }
      if d in docs {
        var i :| 0 <= i < |docs| && docs[i] == d;
        PlacedHas(docs, |docs|, i);
      }
    }
    assert Placed(docs, |docs|) == DocSet(docs);
  }

  /** nDCG is the score of the list in units of the score of any best-first list of the graded documents. */
  lemma {:induction false} NdcgIsTheQuotient(retrieved: seq<Doc>, relevance: map<Doc, nat>, order: seq<Doc>, k: nat,
                                             discount: nat -> real)
    requires IsRanking(order, relevance)
    ensures var ndcg, best := NdcgOf(retrieved, relevance, order, k, discount), Score(order, relevance, discount, k);
            if best > 0.0 then ndcg * best == Score(retrieved, relevance, discount, k) else ndcg == 0.0
  {
    RankingIsItsRun(relevance, order);
    IdealOfClip(relevance, order, discount, k);
    var best := Score(order, relevance, discount, k);
    hide Dcg, Run, IdealDcg;
    if best > 0.0 {
      BackAgain(Score(retrieved, relevance, discount, k), best);
    }
  }

  lemma {:induction false} RankingIsItsRun(relevance: map<Doc, nat>, order: seq<Doc>)
    requires IsRanking(order, relevance)
    ensures NoRepeats(order) && Run(order) == order
  {
    RunIsTheList(order);
  }

  lemma {:induction false} BackAgain(x: real, y: real)
    requires y != 0.0
    ensures (x / y) * y == x
  {
  }

  /** A list that begins with the best documents, best first, scores 1, whatever the discount. */
  lemma {:induction false} LedByTheBest(retrieved: seq<Doc>, relevance: map<Doc, nat>, order: seq<Doc>, k: nat,
                                        discount: nat -> real)
    requires IsRanking(order, relevance) && order[..Min(k, |order|)] <= retrieved
    requires Score(order, relevance, discount, k) > 0.0
    ensures NdcgOf(retrieved, relevance, order, k, discount) == 1.0
  {
    var run := Run(retrieved);
    RankingIsItsRun(relevance, order);
    IdealOfClip(relevance, order, discount, k);
    forall i | 0 <= i < k ensures At(run, relevance, i) == At(order, relevance, i) {
      BestAt(retrieved, relevance, order, k, i);
    }
    DcgOfEqualValues(run, order, relevance, discount, k);
    hide Dcg, Run, At;
    var best := Score(order, relevance, discount, k);
    UnitQuotient(best, best);
  }

  lemma {:induction false} BestAt(retrieved: seq<Doc>, relevance: map<Doc, nat>, order: seq<Doc>, k: nat, i: nat)
    requires IsRanking(order, relevance) && order[..Min(k, |order|)] <= retrieved && i < k
    ensures At(Run(retrieved), relevance, i) == At(order, relevance, i)
  {
    var run, m := Run(retrieved), Min(k, |order|);
    FirstSeenDistinct(retrieved, |retrieved|);
    LeadIsKept(retrieved, order, m);
    hide Run;
    assert forall j :: 0 <= j < m ==> order[j] == order[..m][j] == run[j];
  }

  lemma {:induction false} LeadIsKept(retrieved: seq<Doc>, order: seq<Doc>, k: nat)
    requires NoRepeats(order) && k <= |order| && order[..k] <= retrieved
    ensures order[..k] <= Run(retrieved)
  {
    LeadIsSeen(retrieved, order, k, k);
    FirstSeenGrows(retrieved, k, |retrieved|);
  }

  lemma {:induction false} LeadIsSeen(retrieved: seq<Doc>, order: seq<Doc>, k: nat, n: nat)
    requires NoRepeats(order) && n <= k <= |order| && order[..k] <= retrieved
    ensures FirstSeen(retrieved, n) == order[..n]
  {
    if n == 0 {
    } else {
      LeadIsSeen(retrieved, order, k, n - 1);
      assert retrieved[n - 1] == order[..k][n - 1] == order[n - 1];
      assert order[..n] == order[..n - 1] + [order[n - 1]];
    }
  }
}
