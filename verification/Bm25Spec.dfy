/**
 What the inverted index of bm25_search.py is supposed to mean.

 A corpus is a map from chunk id to bag of tokens.  `NaiveScore` is the plain BM25
 formula read off that map; it knows nothing of slots, postings or tombstones.
 The slot-level functions (`PostingsOf`, `LiveDf`, `LiveLen`) say what the index
 stores, and `SlotsCountTheCorpus` ties the two views together.
 */
module Bm25Spec {
  import opened Common

  // Chunk ids and tokens are only ever compared for equality.
  type Id(==, !new)
  type Term(==, !new)
  type Text(!new)

  type Bag = multiset<Term>
  type Corpus = map<Id, Bag>

  datatype Posting = Posting(slot: nat, tf: nat)

  /** The BM25 constants and the natural logarithm, of which only positivity above 1 is used. */
  datatype Params = Params(k1: real, b: real, ln: real -> real)

  ghost predicate ValidParams(p: Params) {
    && p.k1 >= 0.0
    && 0.0 <= p.b <= 1.0
    && forall x: real :: x > 1.0 ==> p.ln(x) > 0.0
  }

  // ---------------------------------------------------------------- corpus level

  ghost function Containing(c: Corpus, t: Term): set<Id> {
    set id | id in c && t in c[id]
  }

  lemma {:induction false} ContainingSplit(c: Corpus, id: Id, t: Term)
    requires id in c
    ensures |Containing(c, t)| == |Containing(c - {id}, t)| + (if t in c[id] then 1 else 0)
  {
    assert Containing(c, t) == Containing(c - {id}, t) + (if t in c[id] then {id} else {});
  }

  ghost function CorpusLen(c: Corpus): nat {
    if c == map[] then 0
    else
      var id :| id in c;
      |c[id]| + CorpusLen(c - {id})
  }

  /** The sum may be taken in any order: every id can be split off first. */
  lemma {:induction false} CorpusLenSplit(c: Corpus, id: Id)
    requires id in c
    ensures CorpusLen(c) == |c[id]| + CorpusLen(c - {id})
    decreases c.Keys
  {
    var first :| first in c && CorpusLen(c) == |c[first]| + CorpusLen(c - {first});
    if first != id {
      CorpusLenSplit(c - {first}, id);
      CorpusLenSplit(c - {id}, first);
      assert c - {first} - {id} == c - {id} - {first};
    }
  }

  lemma {:induction false} SubtractKeys(c: Corpus, ids: set<Id>)
    ensures c - c.Keys * ids == c - ids
  {
  }

  lemma {:induction false} SubtractOneMore(c: Corpus, gone: set<Id>, id: Id)
    requires id in c - gone
    ensures c - gone - {id} == c - (gone + {id})
    ensures id in c && id !in gone && |gone + {id}| == |gone| + 1
  {
  }

  ghost function AvgLen(c: Corpus): real {
    if |c| == 0 then 1.0 else CorpusLen(c) as real / |c| as real
  }

  /** A document that holds any token keeps the average length away from zero. */
  lemma {:induction false} AvgLenPositive(c: Corpus, id: Id, t: Term)
    requires id in c && t in c[id]
    ensures |c| > 0 && AvgLen(c) > 0.0
  {
    CorpusLenSplit(c, id);
    assert |c[id]| > 0 by {
      assert multiset{t} <= c[id];
    }
    PositiveQuotient(CorpusLen(c) as real, |c| as real);
  }

  lemma {:induction false} PositiveQuotient(x: real, y: real)
    requires x > 0.0 && y > 0.0
    ensures x / y > 0.0
  {
  }

  function IdfArg(n: nat, df: nat): real {
    (n as real - df as real + 0.5) / (df as real + 0.5) + 1.0
  }

  function Denominator(p: Params, tf: nat, dl: nat, avg: real): real
    requires avg != 0.0
  {
    tf as real + p.k1 * (1.0 - p.b + p.b * dl as real / avg)
  }

  lemma {:induction false} DenominatorPositive(p: Params, tf: nat, dl: nat, avg: real)
    requires ValidParams(p) && tf > 0 && avg > 0.0
    ensures Denominator(p, tf, dl, avg) > 0.0
  {
    var x := p.b * dl as real;
    assert x >= 0.0;
    if x > 0.0 {
      PositiveQuotient(x, avg);
    }
    var y := 1.0 - p.b + x / avg;
    assert y >= 0.0;
    assert p.k1 * y >= 0.0;
    assert Denominator(p, tf, dl, avg) == tf as real + p.k1 * y;
  }

  function TermScore(p: Params, n: nat, df: nat, tf: nat, dl: nat, avg: real): real
    requires ValidParams(p) && tf > 0 && avg > 0.0
  {
    DenominatorPositive(p, tf, dl, avg);
    p.ln(IdfArg(n, df)) * (tf as real * (p.k1 + 1.0)) / Denominator(p, tf, dl, avg)
  }

  /** With 1 <= df <= n the inverse document frequency, and so the whole term score, is positive. */
  lemma {:induction false} TermScorePositive(p: Params, n: nat, df: nat, tf: nat, dl: nat, avg: real)
    requires ValidParams(p) && tf > 0 && avg > 0.0
    requires 1 <= df <= n
    ensures IdfArg(n, df) > 1.0
    ensures TermScore(p, n, df, tf, dl, avg) > 0.0
  {
    PositiveQuotient(n as real - df as real + 0.5, df as real + 0.5);
    DenominatorPositive(p, tf, dl, avg);
    var idf := p.ln(IdfArg(n, df));
    var x := tf as real * (p.k1 + 1.0);
    assert x > 0.0;
    assert idf * x > 0.0;
    PositiveQuotient(idf * x, Denominator(p, tf, dl, avg));
  }

  /** What one query term adds to one document. */
  ghost function Contribution(p: Params, c: Corpus, t: Term, id: Id): real
    requires ValidParams(p) && id in c
  {
    if t in c[id] then
      AvgLenPositive(c, id, t);
      TermScore(p, |c|, |Containing(c, t)|, c[id][t], |c[id]|, AvgLen(c))
    else 0.0
  }

  lemma {:induction false} ContributionSign(p: Params, c: Corpus, t: Term, id: Id)
    requires ValidParams(p) && id in c
    ensures Contribution(p, c, t, id) >= 0.0
    ensures t in c[id] ==> 1 <= |Containing(c, t)| <= |c| && Contribution(p, c, t, id) > 0.0
  {
    if t in c[id] {
      assert id in Containing(c, t);
      SubsetSize(Containing(c, t), c.Keys);
      AvgLenPositive(c, id, t);
      TermScorePositive(p, |c|, |Containing(c, t)|, c[id][t], |c[id]|, AvgLen(c));
    }
  }

  /** Naive BM25: the sum of the contributions of the distinct query terms. */
  ghost function NaiveScore(p: Params, c: Corpus, q: set<Term>, id: Id): real
    requires ValidParams(p) && id in c
  {
    if q == {} then 0.0
    else
      var t :| t in q;
      Contribution(p, c, t, id) + NaiveScore(p, c, q - {t}, id)
  }

  /** The index may visit the query terms in any order. */
  lemma {:induction false} NaiveScoreSplit(p: Params, c: Corpus, q: set<Term>, t: Term, id: Id)
    requires ValidParams(p) && id in c && t in q
    ensures NaiveScore(p, c, q, id) == Contribution(p, c, t, id) + NaiveScore(p, c, q - {t}, id)
    decreases q
  {
    var first :| first in q &&
      NaiveScore(p, c, q, id) == Contribution(p, c, first, id) + NaiveScore(p, c, q - {first}, id);
    if first != t {
      NaiveScoreSplit(p, c, q - {first}, t, id);
      NaiveScoreSplit(p, c, q - {t}, first, id);
      assert q - {first} - {t} == q - {t} - {first};
    }
  }

  ghost predicate Shares(bag: Bag, q: set<Term>) {
    exists t :: t in q && t in bag
  }

  /** A document has a positive score exactly when it shares a term with the query. */
  lemma {:induction false} NaiveScorePositive(p: Params, c: Corpus, q: set<Term>, id: Id)
    requires ValidParams(p) && id in c
    ensures NaiveScore(p, c, q, id) >= 0.0
    ensures NaiveScore(p, c, q, id) > 0.0 <==> Shares(c[id], q)
    decreases q
  {
    if q == {} {
    } else {
      var t :| t in q;
      NaiveScoreSplit(p, c, q, t, id);
      ContributionSign(p, c, t, id);
      NaiveScorePositive(p, c, q - {t}, id);
    }
  }

  function IdSet(ids: seq<Id>): (r: set<Id>)
    ensures forall d :: d in r <==> d in ids
  {
    set d | d in ids
  }

  function Distinct(tokens: seq<Term>): (r: set<Term>)
    ensures forall t :: t in r <==> t in tokens
  {
    set t | t in tokens
  }

  datatype Hit = Hit(id: Id, score: real)

  ghost function Matches(c: Corpus, q: set<Term>): set<Id> {
    set id | id in c && Shares(c[id], q)
  }

  /**
   The reference for a query: distinct documents that share a query term, best first, with
   their naive scores; as many as the slice `[:topK]` keeps; none left out beats one returned.
   */
  ghost predicate IsTopK(p: Params, c: Corpus, q: set<Term>, topK: int, hits: seq<Hit>)
    requires ValidParams(p)
  {
    && (forall i :: 0 <= i < |hits| ==> hits[i].id in Matches(c, q) &&
                                        hits[i].score == NaiveScore(p, c, q, hits[i].id) > 0.0)
    && (forall i, j :: 0 <= i < j < |hits| ==> hits[i].id != hits[j].id && hits[i].score >= hits[j].score)
    && |hits| == (if topK >= 0 then Min(topK, |Matches(c, q)|) else Monus(|Matches(c, q)|, -topK))
    && (forall i, id :: 0 <= i < |hits| && id in Matches(c, q) && (forall j :: 0 <= j < |hits| ==> hits[j].id != id) ==>
                          NaiveScore(p, c, q, id) <= hits[i].score)
  }

  /** A full ranking of the matching documents, cut by `[:topK]`, is the reference answer. */
  lemma {:induction false} CutRanking(p: Params, c: Corpus, q: set<Term>, topK: int, all: seq<Hit>)
    requires ValidParams(p)
    requires forall i :: 0 <= i < |all| ==> all[i].id in Matches(c, q) &&
                                            all[i].score == NaiveScore(p, c, q, all[i].id) > 0.0
    requires forall i, j :: 0 <= i < j < |all| ==> all[i].id != all[j].id && all[i].score >= all[j].score
    requires |all| == |Matches(c, q)|
    requires forall id :: id in Matches(c, q) ==> exists i :: 0 <= i < |all| && all[i].id == id
    ensures IsTopK(p, c, q, topK, Take(all, topK))
  {
    assert Matches(c, q) <= c.Keys;
    hide NaiveScore, Matches;
    var hits := Take(all, topK);
    forall i, id | 0 <= i < |hits| && id in Matches(c, q) && (forall j :: 0 <= j < |hits| ==> hits[j].id != id)
      ensures NaiveScore(p, c, q, id) <= hits[i].score
    {
      assert forall j :: 0 <= j < |hits| ==> hits[j] == all[j];
      var at :| 0 <= at < |all| && all[at].id == id;
    }
  }

  /** Reading ids off ranked slots gives a ranking of the matching documents. */
  lemma {:induction false} RankedSlots(p: Params, c: Corpus, q: set<Term>, topK: int, ids: seq<Id>, slot: map<Id, nat>,
                    scores: map<nat, real>, ranked: seq<(nat, real)>, all: seq<Hit>)
    requires ValidParams(p)
    requires |scores| == |Matches(c, q)|
    requires forall i :: i in scores ==> i < |ids| && ids[i] in Matches(c, q) && ids[i] in slot && slot[ids[i]] == i
    requires forall i :: i in scores ==> scores[i] == NaiveScore(p, c, q, ids[i]) > 0.0
    requires forall id :: id in Matches(c, q) ==> id in slot && slot[id] in scores && ids[slot[id]] == id
    requires |ranked| == |scores| == |all|
    requires forall i :: 0 <= i < |ranked| ==> ranked[i].0 in scores && ranked[i].1 == scores[ranked[i].0]
    requires forall i, j :: 0 <= i < j < |ranked| ==> ranked[i].0 != ranked[j].0 && ranked[i].1 >= ranked[j].1
    requires forall k :: k in scores ==> exists i :: 0 <= i < |ranked| && ranked[i].0 == k
    requires forall i :: 0 <= i < |all| ==> all[i] == Hit(ids[ranked[i].0], ranked[i].1)
    ensures IsTopK(p, c, q, topK, Take(all, topK))
  {
    hide NaiveScore, Matches;
    forall id | id in Matches(c, q) ensures exists i :: 0 <= i < |all| && all[i].id == id {
      var i :| 0 <= i < |ranked| && ranked[i].0 == slot[id];
      assert all[i].id == id;
    }
    CutRanking(p, c, q, topK, all);
  }

  ghost function Leading(hits: seq<Hit>, n: nat): set<Id>
    requires n <= |hits|
  {
    set j | 0 <= j < n :: hits[j].id
  }

  lemma {:induction false} LeadingGrows(hits: seq<Hit>, n: nat)
    requires n < |hits|
    ensures Leading(hits, n + 1) == Leading(hits, n) + {hits[n].id}
  {
  }

  lemma {:induction false} LeadingCount(hits: seq<Hit>, n: nat)
    requires n <= |hits| && forall i, j :: 0 <= i < j < |hits| ==> hits[i].id != hits[j].id
    ensures |Leading(hits, n)| == n
  {
    if n == 0 {
    } else {
      LeadingCount(hits, n - 1);
      LeadingGrows(hits, n - 1);
      assert hits[n - 1].id !in Leading(hits, n - 1);
      hide Leading;
    }
  }

  /** With room for all of them, the hits are the documents that have a term of the query. */
  lemma {:induction false} EveryMatchIsFound(p: Params, c: Corpus, q: set<Term>, topK: int, hits: seq<Hit>, id: Id)
    requires ValidParams(p) && topK >= |c| && IsTopK(p, c, q, topK, hits)
    ensures (exists i :: 0 <= i < |hits| && hits[i].id == id) <==> id in c && exists t :: t in q && t in c[id]
  {
    var matches, leading := Matches(c, q), Leading(hits, |hits|);
    assert matches <= c.Keys && id in matches <==> id in c && exists t :: t in q && t in c[id];
    SubsetSize(matches, c.Keys);
    assert |c| == |c.Keys|;
    LeadingCount(hits, |hits|);
    assert leading <= matches;
    assert id in leading <==> exists i :: 0 <= i < |hits| && hits[i].id == id;
    hide NaiveScore, Matches, Leading, IsTopK;
    assert |hits| == |matches|;
    SameSize(leading, matches);
  }

  lemma {:induction false} SameSize<T>(a: set<T>, b: set<T>)
    requires a <= b && |a| == |b|
    ensures a == b
  {
    if x :| x in b && x !in a {
      SubsetSize(a, b - {x});
    }
  }

  /** A document that beats the i-th of an answer comes before it there. */
  lemma {:induction false} BetterComesBefore(p: Params, c: Corpus, q: set<Term>, topK: int, b: seq<Hit>, i: nat,
                                             hit: Hit)
    returns (m: nat)
    requires ValidParams(p) && IsTopK(p, c, q, topK, b) && i < |b|
    requires hit.id in Matches(c, q) && hit.score == NaiveScore(p, c, q, hit.id) > b[i].score
    ensures m < i && b[m].id == hit.id
  {
    hide NaiveScore, Matches;
    assert exists m :: 0 <= m < |b| && b[m].id == hit.id;
    m :| 0 <= m < |b| && b[m].id == hit.id;
    assert b[m].score == hit.score;
  }

  lemma {:induction false} BetterLeadersComeBefore(p: Params, c: Corpus, q: set<Term>, topK: int, a: seq<Hit>,
                                                   b: seq<Hit>, i: nat)
    requires ValidParams(p) && IsTopK(p, c, q, topK, a) && IsTopK(p, c, q, topK, b)
    requires i < |a| && i < |b| && a[i].score > b[i].score
    ensures Leading(a, i + 1) <= Leading(b, i)
  {
    hide NaiveScore, Matches;
    forall id | id in Leading(a, i + 1) ensures id in Leading(b, i) {
      var j :| 0 <= j < i + 1 && a[j].id == id;
      assert a[j].score >= a[i].score;
      var m := BetterComesBefore(p, c, q, topK, b, i, a[j]);
    }
  }

  lemma {:induction false} NoTwins(p: Params, c: Corpus, q: set<Term>, topK: int, a: seq<Hit>, n: nat)
    requires ValidParams(p) && IsTopK(p, c, q, topK, a) && n <= |a|
    ensures |Leading(a, n)| == n
  {
    hide NaiveScore, Matches;
    LeadingCount(a, n);
  }

  /** No answer to a query is better than another at any place, or it would hold one document too many. */
  lemma {:induction false} NoBetterAnswer(p: Params, c: Corpus, q: set<Term>, topK: int, a: seq<Hit>, b: seq<Hit>,
                                          i: nat)
    requires ValidParams(p) && IsTopK(p, c, q, topK, a) && IsTopK(p, c, q, topK, b) && i < |a| == |b|
    ensures a[i].score <= b[i].score
  {
    hide *;
    if a[i].score > b[i].score {
      BetterLeadersComeBefore(p, c, q, topK, a, b, i);
      NoTwins(p, c, q, topK, a, i + 1);
      NoTwins(p, c, q, topK, b, i);
      SubsetSize(Leading(a, i + 1), Leading(b, i));
    }
  }

  /**
   The answer depends on the corpus alone: any two indexes that stand for it, however they came
   about, give a query the same scores in the same places; only ties may name other documents.
   */
  lemma {:induction false} AnswersAgree(p: Params, c: Corpus, q: set<Term>, topK: int, a: seq<Hit>, b: seq<Hit>, i: nat)
    requires ValidParams(p) && IsTopK(p, c, q, topK, a) && IsTopK(p, c, q, topK, b) && i < |a|
    ensures |a| == |b| && a[i].score == b[i].score
  {
    NoBetterAnswer(p, c, q, topK, a, b, i);
    NoBetterAnswer(p, c, q, topK, b, a, i);
  }

  // ---------------------------------------------------------------- slot level

  /** The postings list of a term over all slots, dead or alive: ascending, one entry per slot. */
  ghost function PostingsOf(bags: seq<Bag>, t: Term): seq<Posting> {
    if bags == [] then []
    else
      var n := |bags| - 1;
      var before := PostingsOf(bags[..n], t);
      if t in bags[n] then before + [Posting(n, bags[n][t])] else before
  }

  /** Number of live slots that hold a term. */
  ghost function LiveDf(bags: seq<Bag>, dead: set<nat>, t: Term): nat {
    if bags == [] then 0
    else
      var n := |bags| - 1;
      LiveDf(bags[..n], dead, t) + (if n !in dead && t in bags[n] then 1 else 0)
  }

  ghost function LiveLen(bags: seq<Bag>, dead: set<nat>): nat {
    if bags == [] then 0
    else
      var n := |bags| - 1;
      LiveLen(bags[..n], dead) + (if n !in dead then |bags[n]| else 0)
  }

  ghost function TermsOf(bag: Bag): set<Term> {
    set t | t in bag
  }

  /** `slot` sends every live id to its only live slot. */
  ghost predicate Slotted(ids: seq<Id>, bags: seq<Bag>, dead: set<nat>, slot: map<Id, nat>) {
    && |ids| == |bags|
    && (forall id :: id in slot ==> slot[id] < |ids| && slot[id] !in dead && ids[slot[id]] == id)
    && (forall i :: 0 <= i < |ids| && i !in dead ==> ids[i] in slot && slot[ids[i]] == i)
  }

  ghost function CorpusOf(bags: seq<Bag>, slot: map<Id, nat>): Corpus {
    map id | id in slot && slot[id] < |bags| :: bags[slot[id]]
  }

  ghost predicate Names(e: Posting, bags: seq<Bag>, t: Term) {
    e.slot < |bags| && t in bags[e.slot] && e.tf == bags[e.slot][t]
  }

  /** The postings list of a term holds slots that contain it, in increasing order... */
  lemma {:induction false} PostingsSound(bags: seq<Bag>, t: Term)
    ensures forall e :: e in PostingsOf(bags, t) ==> Names(e, bags, t)
    ensures forall j, k :: 0 <= j < k < |PostingsOf(bags, t)| ==>
              PostingsOf(bags, t)[j].slot < PostingsOf(bags, t)[k].slot
    decreases |bags|
  {
    if bags == [] {
    } else {
      var n := |bags| - 1;
      PostingsSound(bags[..n], t);
      forall e | e in PostingsOf(bags[..n], t) ensures Names(e, bags, t) && e.slot < n {
        assert Names(e, bags[..n], t);
      }
    }
  }

  /** ... and every one of them. */
  lemma {:induction false} PostingsComplete(bags: seq<Bag>, t: Term, i: nat)
    requires i < |bags| && t in bags[i]
    ensures Posting(i, bags[i][t]) in PostingsOf(bags, t)
    decreases |bags|
  {
    var n := |bags| - 1;
    if i < n {
      PostingsComplete(bags[..n], t, i);
    }
  }

  lemma {:induction false} DropLastSlot(ids: seq<Id>, bags: seq<Bag>, dead: set<nat>, slot: map<Id, nat>)
    requires Slotted(ids, bags, dead, slot) && ids != []
    ensures var n := |ids| - 1;
            var slot' := if n in dead then slot else slot - {ids[n]};
            && Slotted(ids[..n], bags[..n], dead, slot')
            && CorpusOf(bags[..n], slot') == if n in dead then CorpusOf(bags, slot) else CorpusOf(bags, slot) - {ids[n]}
    ensures var n := |ids| - 1;
            n !in dead ==> ids[n] in slot && CorpusOf(bags, slot)[ids[n]] == bags[n]
  {
  }

  ghost function SlotsIn(ps: seq<Posting>): set<nat> {
    set k | 0 <= k < |ps| :: ps[k].slot
  }

  lemma {:induction false} SlotsInAppend(ps: seq<Posting>, e: Posting)
    ensures SlotsIn(ps + [e]) == SlotsIn(ps) + {e.slot}
  {
    var all := ps + [e];
    assert all[|ps|] == e;
    forall i | i in SlotsIn(ps) ensures i in SlotsIn(all) {
      var k :| 0 <= k < |ps| && ps[k].slot == i;
      assert all[k].slot == i;
    }
  }

  lemma {:induction false} PostedSlots(bags: seq<Bag>, t: Term)
    ensures forall i: nat :: i in SlotsIn(PostingsOf(bags, t)) <==> i < |bags| && t in bags[i]
  {
    var ps := PostingsOf(bags, t);
    PostingsSound(bags, t);
    forall i: nat
      ensures i in SlotsIn(ps) <==> i < |bags| && t in bags[i]
    {
      if i in SlotsIn(ps) {
        var k :| 0 <= k < |ps| && ps[k].slot == i;
        assert Names(ps[k], bags, t);
      }
      if i < |bags| && t in bags[i] {
        PostingsComplete(bags, t, i);
        var k :| 0 <= k < |ps| && ps[k] == Posting(i, bags[i][t]);
      }
    }
  }

  /** The entry at position `j` names a slot the earlier ones do not. */
  lemma {:induction false} NextPosting(bags: seq<Bag>, t: Term, j: nat)
    requires j < |PostingsOf(bags, t)|
    ensures var ps := PostingsOf(bags, t);
            && Names(ps[j], bags, t)
            && ps[j].slot !in SlotsIn(ps[..j])
            && SlotsIn(ps[..j + 1]) == SlotsIn(ps[..j]) + {ps[j].slot}
  {
    var ps := PostingsOf(bags, t);
    PostingsSound(bags, t);
    assert ps[..j + 1] == ps[..j] + [ps[j]];
    SlotsInAppend(ps[..j], ps[j]);
  }

  /**
   The document frequency kept per term is the number of documents of the corpus that
   contain it.  `SlotsMeasureTheCorpus` and `LiveCount` say the same of the total length
   and the document count.
   */
  lemma {:induction false} SlotsCountTheCorpus(ids: seq<Id>, bags: seq<Bag>, dead: set<nat>,
                                               slot: map<Id, nat>, t: Term)
    requires Slotted(ids, bags, dead, slot)
    ensures LiveDf(bags, dead, t) == |Containing(CorpusOf(bags, slot), t)|
    decreases |ids|
  {
    var c := CorpusOf(bags, slot);
    if ids == [] {
      assert slot == map[];
      assert Containing(c, t) == {};
    } else {
      var n := |ids| - 1;
      var id := ids[n];
      DropLastSlot(ids, bags, dead, slot);
      if n in dead {
        SlotsCountTheCorpus(ids[..n], bags[..n], dead, slot, t);
      } else {
        SlotsCountTheCorpus(ids[..n], bags[..n], dead, slot - {id}, t);
        ContainingSplit(c, id, t);
      }
    }
  }

  lemma {:induction false} SlotsMeasureTheCorpus(ids: seq<Id>, bags: seq<Bag>, dead: set<nat>, slot: map<Id, nat>)
    requires Slotted(ids, bags, dead, slot)
    ensures LiveLen(bags, dead) == CorpusLen(CorpusOf(bags, slot))
    decreases |ids|
  {
    if ids == [] {
      assert slot == map[];
    } else {
      var n := |ids| - 1;
      DropLastSlot(ids, bags, dead, slot);
      if n in dead {
        SlotsMeasureTheCorpus(ids[..n], bags[..n], dead, slot);
      } else {
        SlotsMeasureTheCorpus(ids[..n], bags[..n], dead, slot - {ids[n]});
        CorpusLenSplit(CorpusOf(bags, slot), ids[n]);
      }
    }
  }

  /** Live slots and their ids correspond one to one. */
  lemma {:induction false} AsManyIdsAsSlots(slots: set<nat>, found: set<Id>, ids: seq<Id>, slot: map<Id, nat>)
    requires forall i :: i in slots ==> i < |ids| && ids[i] in found
    requires forall id :: id in found ==> id in slot && slot[id] in slots && ids[slot[id]] == id
    requires forall i :: i in slots ==> ids[i] in slot && slot[ids[i]] == i
    ensures |slots| == |found|
    decreases slots
  {
    if slots == {} {
      assert found == {};
    } else {
      var i :| i in slots;
      AsManyIdsAsSlots(slots - {i}, found - {ids[i]}, ids, slot);
    }
  }

  /** The live slots and the live ids are equally many. */
  lemma {:induction false} LiveCount(ids: seq<Id>, bags: seq<Bag>, dead: set<nat>, slot: map<Id, nat>)
    requires Slotted(ids, bags, dead, slot)
    requires forall i :: i in dead ==> i < |ids|
    ensures |slot| == |ids| - |dead|
    decreases |ids|
  {
    if ids == [] {
      assert dead == {} && slot == map[];
    } else {
      var n := |ids| - 1;
      var dead' := dead - {n};
      var slot' := if n in dead then slot else slot - {ids[n]};
      assert Slotted(ids[..n], bags[..n], dead', slot');
      LiveCount(ids[..n], bags[..n], dead', slot');
    }
  }

  lemma {:induction false} LiveDfAt(bags: seq<Bag>, dead: set<nat>, t: Term, i: nat)
    requires i < |bags| && i !in dead && t in bags[i]
    ensures LiveDf(bags, dead, t) >= 1
    decreases |bags|
  {
    var n := |bags| - 1;
    if i < n {
      LiveDfAt(bags[..n], dead, t, i);
    }
  }

  /** Killing one live slot takes one from the document frequency of exactly its own terms. */
  lemma {:induction false} KillSlot(bags: seq<Bag>, dead: set<nat>, i: nat, t: Term)
    requires i < |bags| && i !in dead
    ensures LiveDf(bags, dead, t) == LiveDf(bags, dead + {i}, t) + (if t in bags[i] then 1 else 0)
    decreases |bags|
  {
    var n := |bags| - 1;
    if i < n {
      KillSlot(bags[..n], dead, i, t);
    } else {
      DeadOutside(bags[..n], dead, i, t);
    }
  }

  lemma {:induction false} DeadOutside(bags: seq<Bag>, dead: set<nat>, i: nat, t: Term)
    requires i >= |bags|
    ensures LiveDf(bags, dead + {i}, t) == LiveDf(bags, dead, t)
    decreases |bags|
  {
    if bags == [] {
    } else {
      DeadOutside(bags[..|bags| - 1], dead, i, t);
    }
  }

  lemma {:induction false} KillLen(bags: seq<Bag>, dead: set<nat>, i: nat)
    requires i !in dead
    ensures LiveLen(bags, dead) == LiveLen(bags, dead + {i}) + (if i < |bags| then |bags[i]| else 0)
    decreases |bags|
  {
    if bags == [] {
    } else {
      KillLen(bags[..|bags| - 1], dead, i);
    }
  }

  // ---------------------------------------------------------------- compaction

  /** The values at the live slots, in slot order. */
  ghost function Survivors<T>(xs: seq<T>, dead: set<nat>): seq<T> {
    if xs == [] then []
    else
      var n := |xs| - 1;
      var kept := Survivors(xs[..n], dead);
      if n in dead then kept else kept + [xs[n]]
  }

  /** The slot a live slot moves to. */
  ghost function Rank(i: nat, dead: set<nat>): nat {
    if i == 0 then 0 else Rank(i - 1, dead) + (if i - 1 in dead then 0 else 1)
  }

  ghost function Renumber(ps: seq<Posting>, dead: set<nat>): seq<Posting> {
    if ps == [] then []
    else
      var n := |ps| - 1;
      var kept := Renumber(ps[..n], dead);
      if ps[n].slot in dead then kept else kept + [Posting(Rank(ps[n].slot, dead), ps[n].tf)]
  }

  lemma {:induction false} SurvivorAt<T>(xs: seq<T>, dead: set<nat>, i: nat)
    requires i < |xs| && i !in dead
    ensures |Survivors(xs, dead)| == Rank(|xs|, dead)
    ensures Rank(i, dead) < |Survivors(xs, dead)| && Survivors(xs, dead)[Rank(i, dead)] == xs[i]
    decreases |xs|
  {
    var n := |xs| - 1;
    SurvivorCount(xs[..n], dead);
    if i < n {
      SurvivorAt(xs[..n], dead, i);
    }
  }

  lemma {:induction false} SurvivorCount<T>(xs: seq<T>, dead: set<nat>)
    ensures |Survivors(xs, dead)| == Rank(|xs|, dead)
    decreases |xs|
  {
    if xs == [] {
    } else {
      SurvivorCount(xs[..|xs| - 1], dead);
    }
  }

  /** Dropping dead postings and renumbering gives the postings of the surviving slots. */
  lemma {:induction false} CompactPostings(bags: seq<Bag>, dead: set<nat>, t: Term)
    ensures Renumber(PostingsOf(bags, t), dead) == PostingsOf(Survivors(bags, dead), t)
    ensures |PostingsOf(Survivors(bags, dead), t)| == LiveDf(bags, dead, t)
    decreases |bags|
  {
    if bags == [] {
    } else {
      var n := |bags| - 1;
      CompactPostings(bags[..n], dead, t);
      SurvivorCount(bags[..n], dead);
      var before := PostingsOf(bags[..n], t);
      var kept := Survivors(bags[..n], dead);
      if t in bags[n] {
        var all := before + [Posting(n, bags[n][t])];
        assert all[..|all| - 1] == before;
      }
      if n !in dead {
        AppendSlot(kept, bags[n], {}, t);
      }
    }
  }

  lemma {:induction false} AppendSlot(bags: seq<Bag>, bag: Bag, dead: set<nat>, t: Term)
    ensures PostingsOf(bags + [bag], t) ==
            if t in bag then PostingsOf(bags, t) + [Posting(|bags|, bag[t])] else PostingsOf(bags, t)
    ensures |bags| !in dead ==>
              LiveDf(bags + [bag], dead, t) == LiveDf(bags, dead, t) + (if t in bag then 1 else 0)
  {
    assert (bags + [bag])[..|bags|] == bags;
  }

  lemma {:induction false} CompactCounts(bags: seq<Bag>, dead: set<nat>, t: Term)
    ensures LiveDf(Survivors(bags, dead), {}, t) == LiveDf(bags, dead, t)
    decreases |bags|
  {
    if bags == [] {
    } else {
      var n := |bags| - 1;
      CompactCounts(bags[..n], dead, t);
      if n !in dead {
        AppendSlot(Survivors(bags[..n], dead), bags[n], {}, t);
      }
    }
  }

  lemma {:induction false} SurvivorOrigin<T>(xs: seq<T>, dead: set<nat>, k: nat) returns (i: nat)
    requires k < |Survivors(xs, dead)|
    ensures i < |xs| && i !in dead && Rank(i, dead) == k && xs[i] == Survivors(xs, dead)[k]
    decreases |xs|
  {
    var n := |xs| - 1;
    SurvivorCount(xs[..n], dead);
    if k < |Survivors(xs[..n], dead)| {
      i := SurvivorOrigin(xs[..n], dead, k);
    } else {
      i := n;
    }
  }

  ghost function MoveSlots(slot: map<Id, nat>, dead: set<nat>): map<Id, nat> {
    map id | id in slot :: Rank(slot[id], dead)
  }

  /** Renumbering keeps the id-to-slot correspondence and the corpus it spells. */
  lemma {:induction false} CompactSlots(ids: seq<Id>, bags: seq<Bag>, dead: set<nat>, slot: map<Id, nat>)
    requires Slotted(ids, bags, dead, slot)
    ensures Slotted(Survivors(ids, dead), Survivors(bags, dead), {}, MoveSlots(slot, dead))
    ensures CorpusOf(Survivors(bags, dead), MoveSlots(slot, dead)) == CorpusOf(bags, slot)
  {
    var ids', bags', slot' := Survivors(ids, dead), Survivors(bags, dead), MoveSlots(slot, dead);
    SurvivorCount(ids, dead);
    SurvivorCount(bags, dead);
    forall id | id in slot'
      ensures slot'[id] < |ids'| && ids'[slot'[id]] == id && bags'[slot'[id]] == bags[slot[id]]
    {
      SurvivorAt(ids, dead, slot[id]);
      SurvivorAt(bags, dead, slot[id]);
    }
    forall k | 0 <= k < |ids'|
      ensures ids'[k] in slot' && slot'[ids'[k]] == k
    {
      var i := SurvivorOrigin(ids, dead, k);
    }
  }

  // ---------------------------------------------------------------- the tables of an index

  /** A snapshot of the tables of an index, with the tokens each slot was indexed with. */
  datatype Tables = Tables(ids: seq<Id>, lens: seq<nat>, postings: map<Term, seq<Posting>>, dead: set<nat>,
                           df: map<Term, int>, terms: seq<set<Term>>, total: int,
                           bags: seq<Bag>, slot: map<Id, nat>)

  ghost predicate PostingsOk(postings: map<Term, seq<Posting>>, bags: seq<Bag>) {
    forall t :: GetOr(postings, t, []) == PostingsOf(bags, t)
  }

  ghost predicate DfOk(df: map<Term, int>, bags: seq<Bag>, dead: set<nat>) {
    forall t :: GetOr(df, t, 0) == LiveDf(bags, dead, t)
  }

  ghost predicate LensOk(lens: seq<nat>, bags: seq<Bag>) {
    |lens| == |bags| && forall i :: 0 <= i < |lens| ==> lens[i] == |bags[i]|
  }

  ghost predicate TermsOk(terms: seq<set<Term>>, bags: seq<Bag>) {
    |terms| == |bags| && forall i :: 0 <= i < |terms| ==> terms[i] == TermsOf(bags[i])
  }

  /** What the cache payload carries is right; `df` and `terms` may not be. */
  ghost predicate Stored(x: Tables) {
    && Slotted(x.ids, x.bags, x.dead, x.slot)
    && (forall i :: i in x.dead ==> i < |x.ids|)
    && LensOk(x.lens, x.bags)
    && PostingsOk(x.postings, x.bags)
    && x.total == LiveLen(x.bags, x.dead)
  }

  ghost predicate Consistent(x: Tables) {
    Stored(x) && TermsOk(x.terms, x.bags) && DfOk(x.df, x.bags, x.dead)
  }

  ghost predicate NeverIn(t: Term, bags: seq<Bag>) {
    forall i :: 0 <= i < |bags| ==> t !in bags[i]
  }

  /** What a consistent postings list says about its term. */
  lemma {:induction false} PostedAs(postings: map<Term, seq<Posting>>, bags: seq<Bag>, dead: set<nat>, t: Term)
    requires PostingsOk(postings, bags)
    ensures var ps := GetOr(postings, t, []);
            && ps == PostingsOf(bags, t)
            && |Renumber(ps, dead)| == LiveDf(bags, dead, t)
            && (forall k :: 0 <= k < |ps| ==> ps[k].slot < |bags|)
            && (forall i: nat :: i in SlotsIn(ps) <==> i < |bags| && t in bags[i])
    ensures t !in postings ==> LiveDf(bags, dead, t) == 0 && NeverIn(t, bags)
  {
    var ps := GetOr(postings, t, []);
    assert ps == PostingsOf(bags, t);
    PostedSlots(bags, t);
    CompactPostings(bags, dead, t);
    forall k | 0 <= k < |ps| ensures ps[k].slot < |bags| {
      assert ps[k].slot in SlotsIn(ps);
    }
    if t !in postings {
      assert SlotsIn([]) == {};
    }
  }

  lemma {:induction false} KilledSlotCounts(x: Tables, i: nat, t: Term)
    requires Consistent(x) && i < |x.ids| && i !in x.dead
    ensures GetOr(x.df, t, 0) == LiveDf(x.bags, x.dead + {i}, t) + (if t in x.terms[i] then 1 else 0)
  {
    KillSlot(x.bags, x.dead, i, t);
  }

  lemma {:induction false} KilledSlots(ids: seq<Id>, bags: seq<Bag>, dead: set<nat>, slot: map<Id, nat>, i: nat)
    requires Slotted(ids, bags, dead, slot) && i < |ids| && i !in dead
    ensures Slotted(ids, bags, dead + {i}, slot - {ids[i]})
    ensures CorpusOf(bags, slot - {ids[i]}) == CorpusOf(bags, slot) - {ids[i]}
  {
  }

  lemma {:induction false} KilledTables(x: Tables, i: nat, df: map<Term, int>)
    requires Consistent(x) && i < |x.ids| && i !in x.dead
    requires forall t :: GetOr(df, t, 0) == GetOr(x.df, t, 0) - (if t in x.terms[i] then 1 else 0)
    ensures Consistent(x.(dead := x.dead + {i}, slot := x.slot - {x.ids[i]}, df := df, total := x.total - x.lens[i]))
    ensures CorpusOf(x.bags, x.slot - {x.ids[i]}) == CorpusOf(x.bags, x.slot) - {x.ids[i]}
  {
    KillLen(x.bags, x.dead, i);
    KilledSlots(x.ids, x.bags, x.dead, x.slot, i);
    forall t ensures GetOr(df, t, 0) == LiveDf(x.bags, x.dead + {i}, t) {
      KilledSlotCounts(x, i, t);
    }
  }

  lemma {:induction false} AppendedSlots(ids: seq<Id>, bags: seq<Bag>, dead: set<nat>, slot: map<Id, nat>, id: Id,
                                         bag: Bag)
    requires Slotted(ids, bags, dead, slot) && id !in slot && |ids| !in dead
    ensures Slotted(ids + [id], bags + [bag], dead, slot[id := |ids|])
    ensures CorpusOf(bags + [bag], slot[id := |ids|]) == CorpusOf(bags, slot)[id := bag]
  {
  }

  lemma {:induction false} AppendedCounts(bags: seq<Bag>, dead: set<nat>, bag: Bag, postings: map<Term, seq<Posting>>,
                       postings': map<Term, seq<Posting>>, df: map<Term, int>, df': map<Term, int>)
    requires PostingsOk(postings, bags) && DfOk(df, bags, dead) && |bags| !in dead
    requires forall t :: GetOr(postings', t, []) ==
               GetOr(postings, t, []) + (if t in bag then [Posting(|bags|, bag[t])] else [])
    requires forall t :: GetOr(df', t, 0) == GetOr(df, t, 0) + (if t in bag then 1 else 0)
    ensures PostingsOk(postings', bags + [bag]) && DfOk(df', bags + [bag], dead)
  {
    forall t
      ensures GetOr(postings', t, []) == PostingsOf(bags + [bag], t)
      ensures GetOr(df', t, 0) == LiveDf(bags + [bag], dead, t)
    {
      AppendSlot(bags, bag, dead, t);
    }
  }

  lemma {:induction false} AppendedTables(x: Tables, id: Id, bag: Bag, postings: map<Term, seq<Posting>>,
                                          df: map<Term, int>)
    requires Consistent(x) && id !in x.slot
    requires forall t :: GetOr(postings, t, []) ==
               GetOr(x.postings, t, []) + (if t in bag then [Posting(|x.ids|, bag[t])] else [])
    requires forall t :: GetOr(df, t, 0) == GetOr(x.df, t, 0) + (if t in bag then 1 else 0)
    ensures Consistent(Tables(x.ids + [id], x.lens + [|bag|], postings, x.dead, df, x.terms + [TermsOf(bag)],
                              x.total + |bag|, x.bags + [bag], x.slot[id := |x.ids|]))
    ensures CorpusOf(x.bags + [bag], x.slot[id := |x.ids|]) == CorpusOf(x.bags, x.slot)[id := bag]
  {
    assert (x.bags + [bag])[..|x.bags|] == x.bags;
    AppendedSlots(x.ids, x.bags, x.dead, x.slot, id, bag);
    AppendedCounts(x.bags, x.dead, bag, x.postings, postings, x.df, df);
  }

  lemma {:induction false} CompactedCounts(bags: seq<Bag>, dead: set<nat>, postings: map<Term, seq<Posting>>,
                        postings': map<Term, seq<Posting>>, df': map<Term, int>)
    requires PostingsOk(postings, bags)
    requires forall t :: GetOr(postings', t, []) == Renumber(GetOr(postings, t, []), dead)
    requires forall t :: GetOr(df', t, 0) == |GetOr(postings', t, [])|
    ensures PostingsOk(postings', Survivors(bags, dead)) && DfOk(df', Survivors(bags, dead), {})
  {
    forall t
      ensures GetOr(postings', t, []) == PostingsOf(Survivors(bags, dead), t)
      ensures GetOr(df', t, 0) == LiveDf(Survivors(bags, dead), {}, t)
    {
      CompactPostings(bags, dead, t);
      CompactCounts(bags, dead, t);
    }
  }

  lemma {:induction false} CompactedRows(lens: seq<nat>, terms: seq<set<Term>>, bags: seq<Bag>, dead: set<nat>)
    requires LensOk(lens, bags) && TermsOk(terms, bags)
    ensures LensOk(Survivors(lens, dead), Survivors(bags, dead))
    ensures TermsOk(Survivors(terms, dead), Survivors(bags, dead))
  {
    SurvivorCount(lens, dead);
    SurvivorCount(terms, dead);
    SurvivorCount(bags, dead);
    forall k | 0 <= k < |Survivors(bags, dead)|
      ensures Survivors(lens, dead)[k] == |Survivors(bags, dead)[k]|
      ensures Survivors(terms, dead)[k] == TermsOf(Survivors(bags, dead)[k])
    {
      var i := SurvivorOrigin(bags, dead, k);
      SurvivorAt(lens, dead, i);
      SurvivorAt(terms, dead, i);
    }
  }

  lemma {:induction false} CompactedTables(x: Tables, y: Tables)
    requires Consistent(x)
    requires y.ids == Survivors(x.ids, x.dead) && y.bags == Survivors(x.bags, x.dead)
    requires y.slot == MoveSlots(x.slot, x.dead) && y.dead == {}
    requires y.lens == Survivors(x.lens, x.dead) && y.terms == Survivors(x.terms, x.dead)
    requires forall t :: GetOr(y.postings, t, []) == Renumber(GetOr(x.postings, t, []), x.dead)
    requires forall t :: GetOr(y.df, t, 0) == |GetOr(y.postings, t, [])|
    requires y.total == LiveLen(y.bags, {})
    ensures Consistent(y) && CorpusOf(y.bags, y.slot) == CorpusOf(x.bags, x.slot)
  {
    CompactSlots(x.ids, x.bags, x.dead, x.slot);
    CompactedRows(x.lens, x.terms, x.bags, x.dead);
    CompactedCounts(x.bags, x.dead, x.postings, y.postings, y.df);
  }
}
