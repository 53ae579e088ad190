/**
 What the BM25 formula of bm25_search.py does to a ranking, stated over the corpus: rarer terms,
 more occurrences and shorter documents come first.
 */
module Bm25Ranking {
  import opened Common
  import opened Bm25Spec

  ghost predicate Increasing(ln: real -> real) {
    forall x: real, y: real :: 0.0 < x < y ==> ln(x) < ln(y)
  }

  // ----- products and quotients -----

  lemma {:induction false} TimesPositive(x: real, y: real)
    requires x > 0.0 && y > 0.0
    ensures x * y > 0.0
  {
  }

  lemma {:induction false} TimesGrows(x: real, y: real, z: real)
    requires x <= y && z >= 0.0
    ensures x * z <= y * z
    ensures x < y && z > 0.0 ==> x * z < y * z
  {
    assert (y - x) * z >= 0.0;
    if x < y && z > 0.0 {
      TimesPositive(y - x, z);
    }
    assert (y - x) * z == y * z - x * z;
  }

  lemma {:induction false} QuotientTimes(x: real, y: real)
    requires y != 0.0
    ensures (x / y) * y == x
  {
  }

  lemma {:induction false} QuotientGrows(x: real, y: real, d: real)
    requires 0.0 <= x <= y && d > 0.0
    ensures 0.0 <= x / d <= y / d
    ensures x < y ==> x / d < y / d
    ensures y > 0.0 ==> y / d > 0.0
  {
    var u, v := x / d, y / d;
    QuotientTimes(x, d);
    QuotientTimes(y, d);
    hide *;
    Cancels(0.0, u, d);
    Cancels(u, v, d);
    Cancels(0.0, v, d);
  }

  /** A positive factor can be cancelled from a comparison. */
  lemma {:induction false} Cancels(x: real, y: real, z: real)
    requires z > 0.0
    ensures x < y <==> x * z < y * z
    ensures x == y <==> x * z == y * z
  {
    if x < y {
      TimesGrows(x, y, z);
    } else if y < x {
      TimesGrows(y, x, z);
    }
  }

  /** Quotients of one weight compare as their cross products do. */
  lemma {:induction false} CrossProducts(s: real, d: real, x: real, s': real, d': real, x': real, w: real)
    requires w > 0.0 && d > 0.0 && d' > 0.0 && s * d == x * w && s' * d' == x' * w
    ensures s > s' <==> x * d' > x' * d
    ensures s == s' <==> x * d' == x' * d
  {
    TimesPositive(d, d');
    Regroups(s, d, d', x, w);
    Regroups(s', d', d, x', w);
    Commutes(d, d');
    var both, left, right := d * d', x * d', x' * d;
    Cancels(s', s, both);
    Cancels(right, left, w);
  }

  lemma {:induction false} Commutes(x: real, y: real)
    ensures x * y == y * x
  {
  }

  lemma {:induction false} Regroups(s: real, d: real, e: real, x: real, w: real)
    requires s * d == x * w
    ensures s * (d * e) == (x * e) * w
  {
    assert s * (d * e) == (s * d) * e;
    assert (x * w) * e == (x * e) * w;
  }

  // ----- one term -----

  /** The logarithm's argument, times how often the term is counted, is always the same. */
  lemma {:induction false} IdfLaw(n: nat, df: nat)
    ensures IdfArg(n, df) * (df as real + 0.5) == n as real + 1.0
  {
    var d := df as real + 0.5;
    QuotientTimes(n as real - df as real + 0.5, d);
    assert IdfArg(n, df) == (n as real - df as real + 0.5) / d + 1.0;
  }

  lemma {:induction false} RarerIsHeavier(n: nat, df: nat, df': nat)
    requires df < df'
    ensures IdfArg(n, df) > IdfArg(n, df') > 0.0
  {
    var d, d', x, x' := df as real + 0.5, df' as real + 0.5, IdfArg(n, df), IdfArg(n, df');
    IdfLaw(n, df);
    IdfLaw(n, df');
    if x' <= 0.0 {
      TimesGrows(x', 0.0, d');
    }
    if x <= x' {
      TimesGrows(x, x', d);
      TimesGrows(d, d', x');
    }
  }

  /** How much a document's length counts against it. */
  ghost function LengthNorm(p: Params, dl: nat, avg: real): real
    requires avg != 0.0
  {
    p.k1 * (1.0 - p.b + p.b * dl as real / avg)
  }

  /** The score `s` is idf * (tf * k) / d, with the divisor multiplied out. */
  ghost predicate Solves(s: real, d: real, idf: real, tf: nat, k: real) {
    s * d == idf * (tf as real * k)
  }

  /** One side of a comparison: the multiplicity in one document against the length norm of the other. */
  ghost function Cross(tf: nat, norm: real): real {
    tf as real * norm
  }

  /** A term score, with its divisor multiplied out. */
  lemma {:induction false} TermScoreLaw(p: Params, n: nat, df: nat, tf: nat, dl: nat, avg: real)
    requires ValidParams(p) && tf > 0 && avg > 0.0
    ensures tf as real + LengthNorm(p, dl, avg) > 0.0
    ensures Solves(TermScore(p, n, df, tf, dl, avg), tf as real + LengthNorm(p, dl, avg), p.ln(IdfArg(n, df)), tf,
                   p.k1 + 1.0)
  {
    DenominatorPositive(p, tf, dl, avg);
    QuotientTimes(p.ln(IdfArg(n, df)) * (tf as real * (p.k1 + 1.0)), Denominator(p, tf, dl, avg));
  }

  lemma {:induction false} LnPositive(p: Params, n: nat, df: nat)
    requires ValidParams(p) && 1 <= df <= n
    ensures p.ln(IdfArg(n, df)) > 0.0
  {
    TermScorePositive(p, n, df, 1, 0, 1.0);
  }

  lemma {:induction false} K1Positive(p: Params)
    requires ValidParams(p)
    ensures p.k1 + 1.0 > 0.0
  {
  }

  /**
   Exactly how one term orders two documents: by multiplicity against length, the logarithm and
   k1 + 1 being the same for both.
   */
  lemma {:induction false} TermOrder(p: Params, n: nat, df: nat, tf: nat, dl: nat, tf': nat, dl': nat, avg: real)
    requires ValidParams(p) && tf > 0 && tf' > 0 && avg > 0.0 && 1 <= df <= n
    ensures TermScore(p, n, df, tf, dl, avg) > TermScore(p, n, df, tf', dl', avg) <==>
            Cross(tf, LengthNorm(p, dl', avg)) > Cross(tf', LengthNorm(p, dl, avg))
    ensures TermScore(p, n, df, tf, dl, avg) == TermScore(p, n, df, tf', dl', avg) <==>
            Cross(tf, LengthNorm(p, dl', avg)) == Cross(tf', LengthNorm(p, dl, avg))
  {
    LnPositive(p, n, df);
    K1Positive(p);
    TermScoreLaw(p, n, df, tf, dl, avg);
    TermScoreLaw(p, n, df, tf', dl', avg);
    hide *;
    OrderByCross(TermScore(p, n, df, tf, dl, avg), TermScore(p, n, df, tf', dl', avg), tf, tf',
                 LengthNorm(p, dl, avg), LengthNorm(p, dl', avg), p.ln(IdfArg(n, df)), p.k1 + 1.0);
  }

  lemma {:induction false} OrderByCross(s: real, s': real, tf: nat, tf': nat, l: real, l': real, idf: real, k: real)
    requires idf > 0.0 && k > 0.0 && tf as real + l > 0.0 && tf' as real + l' > 0.0
    requires Solves(s, tf as real + l, idf, tf, k) && Solves(s', tf' as real + l', idf, tf', k)
    ensures s > s' <==> Cross(tf, l') > Cross(tf', l)
    ensures s == s' <==> Cross(tf, l') == Cross(tf', l)
  {
    var w, x, x' := idf * k, tf as real, tf' as real;
    TimesPositive(idf, k);
    assert idf * (x * k) == x * w && idf * (x' * k) == x' * w;
    CrossProducts(s, x + l, x, s', x' + l', x', w);
    assert x * (x' + l') == x * x' + x * l' && x' * (x + l) == x * x' + x' * l;
  }

  lemma {:induction false} LongerCountsMore(p: Params, dl: nat, dl': nat, avg: real)
    requires ValidParams(p) && avg > 0.0 && dl <= dl'
    ensures 0.0 <= LengthNorm(p, dl, avg) <= LengthNorm(p, dl', avg)
    ensures p.k1 > 0.0 && dl' > 0 ==> LengthNorm(p, dl', avg) > 0.0
    ensures p.k1 > 0.0 && p.b > 0.0 && dl < dl' ==> LengthNorm(p, dl, avg) < LengthNorm(p, dl', avg)
  {
    var x, x' := p.b * dl as real, p.b * dl' as real;
    BTimes(p.b, dl, dl');
    QuotientGrows(x, x', avg);
    var z, z' := 1.0 - p.b + x / avg, 1.0 - p.b + x' / avg;
    NormIs(p, dl, avg, z);
    NormIs(p, dl', avg, z');
    K1Times(p.k1, z, z');
    hide *;
  }

  lemma {:induction false} NormIs(p: Params, dl: nat, avg: real, z: real)
    requires avg != 0.0 && z == 1.0 - p.b + (p.b * dl as real) / avg
    ensures LengthNorm(p, dl, avg) == p.k1 * z
  {
  }

  lemma {:induction false} BTimes(b: real, dl: nat, dl': nat)
    requires 0.0 <= b && dl <= dl'
    ensures 0.0 <= b * dl as real <= b * dl' as real
    ensures b > 0.0 && dl < dl' ==> b * dl as real < b * dl' as real
    ensures b > 0.0 && dl' > 0 ==> b * dl' as real > 0.0
  {
    TimesGrows(dl as real, dl' as real, b);
    TimesGrows(0.0, dl as real, b);
    TimesGrows(0.0, dl' as real, b);
  }

  lemma {:induction false} K1Times(k: real, z: real, z': real)
    requires 0.0 <= k && 0.0 <= z <= z'
    ensures 0.0 <= k * z <= k * z'
    ensures k > 0.0 && z < z' ==> k * z < k * z'
    ensures k > 0.0 && z' > 0.0 ==> k * z' > 0.0
  {
    TimesGrows(z, z', k);
    TimesGrows(0.0, z, k);
    TimesGrows(0.0, z', k);
  }

  // ----- one term over a corpus -----

  /** The whole formula, in counts alone. */
  lemma {:induction false} ContributionFormula(p: Params, c: Corpus, t: Term, id: Id)
    requires ValidParams(p) && id in c && t in c[id]
    ensures |c| > 0 && CorpusLen(c) > 0
    ensures var rarity := (|c| as real + 1.0) / (|Containing(c, t)| as real + 0.5);
            Solves(Contribution(p, c, t, id), Divisor(p, c[id][t], |c[id]|, |c|, CorpusLen(c)), p.ln(rarity), c[id][t],
                   p.k1 + 1.0)
  {
    var n, df, tf, dl := |c|, |Containing(c, t)|, c[id][t], |c[id]|;
    var len, avg := CorpusLen(c), AvgLen(c);
    AvgLenPositive(c, id, t);
    assert avg == len as real / n as real;
    assert Contribution(p, c, t, id) == TermScore(p, n, df, tf, dl, avg);
    hide *;
    TermScoreLaw(p, n, df, tf, dl, avg);
    SameIdf(n, df);
    SameDivisor(p, tf, dl, avg, n, len);
  }

  /** tf + k1 * (1 - b + b * dl / (len / n)): multiplicity, length, number of documents, their total length. */
  ghost function Divisor(p: Params, tf: nat, dl: nat, n: nat, len: nat): real
    requires len > 0
  {
    tf as real + p.k1 * (1.0 - p.b + p.b * dl as real * n as real / len as real)
  }

  lemma {:induction false} SameIdf(n: nat, df: nat)
    ensures IdfArg(n, df) == (n as real + 1.0) / (df as real + 0.5)
  {
    IdfLaw(n, df);
    QuotientTimes(n as real + 1.0, df as real + 0.5);
    hide *;
    Cancels(IdfArg(n, df), (n as real + 1.0) / (df as real + 0.5), df as real + 0.5);
  }

  lemma {:induction false} SameNorm(p: Params, dl: nat, avg: real, n: nat, len: real)
    requires avg > 0.0 && n > 0 && avg == len / n as real
    ensures len > 0.0 && LengthNorm(p, dl, avg) == p.k1 * (1.0 - p.b + p.b * dl as real * n as real / len)
  {
    QuotientTimes(len, n as real);
    TimesPositive(avg, n as real);
    SameQuotient(p.b * dl as real, avg, n as real, len);
  }

  lemma {:induction false} SameDivisor(p: Params, tf: nat, dl: nat, avg: real, n: nat, len: nat)
    requires avg > 0.0 && n > 0 && avg == len as real / n as real
    ensures len > 0 && Divisor(p, tf, dl, n, len) == tf as real + LengthNorm(p, dl, avg)
  {
    SameNorm(p, dl, avg, n, len as real);
  }

  lemma {:induction false} SameQuotient(x: real, avg: real, n: real, len: real)
    requires avg > 0.0 && n > 0.0 && len > 0.0 && avg * n == len
    ensures x / avg == x * n / len
  {
    var y, z := x / avg, x * n / len;
    QuotientTimes(x, avg);
    QuotientTimes(x * n, len);
    assert y * len == (y * avg) * n;
    Cancels(y, z, len);
  }

  /** The first document has the term at least as often, and is no longer. */
  lemma {:induction false} MoreAndShorter(p: Params, c: Corpus, t: Term, id: Id, id': Id)
    requires ValidParams(p) && id in c && id' in c && c[id][t] >= c[id'][t] && |c[id]| <= |c[id']|
    ensures Contribution(p, c, t, id) >= Contribution(p, c, t, id')
    ensures c[id][t] > c[id'][t] && (c[id'][t] == 0 || p.k1 > 0.0) ==>
              Contribution(p, c, t, id) > Contribution(p, c, t, id')
    ensures p.k1 > 0.0 && p.b > 0.0 && |c[id]| < |c[id']| && t in c[id'] ==>
              Contribution(p, c, t, id) > Contribution(p, c, t, id')
  {
    ContributionSign(p, c, t, id);
    if t in c[id'] {
      ContributionSign(p, c, t, id');
      AvgLenPositive(c, id', t);
      TokenCounts(c[id'], t);
      assert t in c[id];
      MoreAndShorterTerm(p, |c|, |Containing(c, t)|, c[id][t], |c[id]|, c[id'][t], |c[id']|, AvgLen(c));
    }
  }

  lemma {:induction false} MoreAndShorterTerm(p: Params, n: nat, df: nat, tf: nat, dl: nat, tf': nat, dl': nat,
                                              avg: real)
    requires ValidParams(p) && avg > 0.0 && 1 <= df <= n && tf >= tf' > 0 && 0 < dl' && dl <= dl'
    ensures var s, s' := TermScore(p, n, df, tf, dl, avg), TermScore(p, n, df, tf', dl', avg);
            s >= s' && (p.k1 > 0.0 && (tf > tf' || (p.b > 0.0 && dl < dl')) ==> s > s')
  {
    hide *;
    TermOrder(p, n, df, tf, dl, tf', dl', avg);
    LongerCountsMore(p, dl, dl', avg);
    CrossGrows(tf, tf', LengthNorm(p, dl, avg), LengthNorm(p, dl', avg));
  }

  lemma {:induction false} CrossGrows(tf: nat, tf': nat, l: real, l': real)
    requires tf >= tf' > 0 && 0.0 <= l <= l'
    ensures Cross(tf, l') >= Cross(tf', l)
    ensures (tf > tf' && l' > 0.0) || l < l' ==> Cross(tf, l') > Cross(tf', l)
  {
    var x, x' := tf as real, tf' as real;
    TimesGrows(x', x, l');
    TimesGrows(l, l', x');
    assert Cross(tf, l') == x * l' && Cross(tf', l) == l * x';
    assert l' * x' == x' * l';
  }

  lemma {:induction false} TokenCounts(bag: Bag, t: Term)
    requires t in bag
    ensures |bag| > 0
  {
    assert multiset{t} <= bag;
  }

  /** Of two terms that occur equally often in equally long documents, the one in fewer documents counts more. */
  lemma {:induction false} RarerCountsMore(p: Params, c: Corpus, t: Term, t': Term, id: Id, id': Id)
    requires ValidParams(p) && Increasing(p.ln) && id in c && id' in c && t in c[id] && t' in c[id']
    requires c[id][t] == c[id'][t'] && |c[id]| == |c[id']| && |Containing(c, t)| < |Containing(c, t')|
    ensures Contribution(p, c, t, id) > Contribution(p, c, t', id')
  {
    var n, df, df', avg, tf, dl := |c|, |Containing(c, t)|, |Containing(c, t')|, AvgLen(c), c[id][t], |c[id]|;
    AvgLenPositive(c, id, t);
    RarerIsHeavier(n, df, df');
    TermScoreLaw(p, n, df, tf, dl, avg);
    TermScoreLaw(p, n, df', tf, dl, avg);
    var d, x := tf as real + LengthNorm(p, dl, avg), tf as real * (p.k1 + 1.0);
    var s, s' := TermScore(p, n, df, tf, dl, avg), TermScore(p, n, df', tf, dl, avg);
    TimesPositive(tf as real, p.k1 + 1.0);
    TimesGrows(p.ln(IdfArg(n, df')), p.ln(IdfArg(n, df)), x);
    if s <= s' {
      TimesGrows(s, s', d);
    }
  }

  // ----- whole queries -----

  /** Every query term occurs in the first at least as often, the first is no longer, and one of that is strict. */
  ghost predicate HasMore(p: Params, c: Corpus, q: set<Term>, id: Id, id': Id)
    requires id in c && id' in c
  {
    && |c[id]| <= |c[id']|
    && (forall t :: t in q ==> c[id][t] >= c[id'][t])
    && (|| (exists t :: t in q && c[id][t] > c[id'][t] && (c[id'][t] == 0 || p.k1 > 0.0))
        || (p.k1 > 0.0 && p.b > 0.0 && |c[id]| < |c[id']| && Shares(c[id'], q)))
  }

  /** Of the query terms each document has one, the first a rarer one, as often and in as long a document. */
  ghost predicate HasRarer(p: Params, c: Corpus, q: set<Term>, id: Id, id': Id, t: Term, t': Term)
    requires id in c && id' in c
  {
    && Increasing(p.ln) && t in q && t' in q
    && (forall u :: u in q ==> (u in c[id] <==> u == t) && (u in c[id'] <==> u == t'))
    && c[id][t] == c[id'][t'] && |c[id]| == |c[id']| && |Containing(c, t)| < |Containing(c, t')|
  }

  /** One document goes before another by what they contain, without reference to any score. */
  ghost predicate Outranks(p: Params, c: Corpus, q: set<Term>, id: Id, id': Id) {
    && id in c && id' in c
    && (HasMore(p, c, q, id, id') || exists t, t' :: HasRarer(p, c, q, id, id', t, t'))
  }

  lemma {:induction false} ScoresAddUp(p: Params, c: Corpus, q: set<Term>, id: Id, id': Id)
    requires ValidParams(p) && id in c && id' in c
    requires forall t :: t in q ==> Contribution(p, c, t, id) >= Contribution(p, c, t, id')
    ensures NaiveScore(p, c, q, id) >= NaiveScore(p, c, q, id')
    ensures (exists t :: t in q && Contribution(p, c, t, id) > Contribution(p, c, t, id')) ==>
              NaiveScore(p, c, q, id) > NaiveScore(p, c, q, id')
    decreases q
  {
    hide Contribution, NaiveScore;
    if q == {} {
      NoTerms(p, c, id);
      NoTerms(p, c, id');
    } else {
      var t :| t in q;
      if exists u :: u in q && Contribution(p, c, u, id) > Contribution(p, c, u, id') {
        t :| t in q && Contribution(p, c, t, id) > Contribution(p, c, t, id');
      }
      NaiveScoreSplit(p, c, q, t, id);
      NaiveScoreSplit(p, c, q, t, id');
      ScoresAddUp(p, c, q - {t}, id, id');
    }
  }

  lemma {:induction false} NoTerms(p: Params, c: Corpus, id: Id)
    requires ValidParams(p) && id in c
    ensures NaiveScore(p, c, {}, id) == 0.0
  {
  }

  /** A query that meets one term of a document scores what that term contributes. */
  lemma {:induction false} OneTermScore(p: Params, c: Corpus, q: set<Term>, t: Term, id: Id)
    requires ValidParams(p) && id in c && t in q && forall u :: u in q && u in c[id] ==> u == t
    ensures NaiveScore(p, c, q, id) == Contribution(p, c, t, id)
  {
    NaiveScoreSplit(p, c, q, t, id);
    NaiveScorePositive(p, c, q - {t}, id);
  }

  /** The order of contents is the order of scores. */
  lemma {:induction false} OutranksScores(p: Params, c: Corpus, q: set<Term>, id: Id, id': Id)
    requires ValidParams(p) && Outranks(p, c, q, id, id')
    ensures NaiveScore(p, c, q, id) > NaiveScore(p, c, q, id')
  {
    if HasMore(p, c, q, id, id') {
      forall t | t in q ensures Contribution(p, c, t, id) >= Contribution(p, c, t, id') {
        MoreAndShorter(p, c, t, id, id');
      }
      var t :| t in q && ((c[id][t] > c[id'][t] && (c[id'][t] == 0 || p.k1 > 0.0))
                          || (p.k1 > 0.0 && p.b > 0.0 && |c[id]| < |c[id']| && t in c[id']));
      MoreAndShorter(p, c, t, id, id');
      ScoresAddUp(p, c, q, id, id');
    } else {
      var t, t' :| HasRarer(p, c, q, id, id', t, t');
      assert t in c[id] && t' in c[id'];
      OneTermScore(p, c, q, t, id);
      OneTermScore(p, c, q, t', id');
      RarerCountsMore(p, c, t, t', id, id');
    }
  }

  /** Whatever outranks a hit comes before it. */
  ghost predicate BestFirst(p: Params, c: Corpus, q: set<Term>, hits: seq<Hit>) {
    forall i, id :: 0 <= i < |hits| && Outranks(p, c, q, id, hits[i].id) ==>
                      exists m :: 0 <= m < i && hits[m].id == id
  }

  lemma {:induction false} TopIsBestFirst(p: Params, c: Corpus, q: set<Term>, topK: int, hits: seq<Hit>)
    requires ValidParams(p) && IsTopK(p, c, q, topK, hits)
    ensures BestFirst(p, c, q, hits)
  {
    forall i, id | 0 <= i < |hits| && Outranks(p, c, q, id, hits[i].id)
      ensures exists m :: 0 <= m < i && hits[m].id == id
    {
      var id' := hits[i].id;
      OutranksScores(p, c, q, id, id');
      NaiveScorePositive(p, c, q, id);
      NaiveScorePositive(p, c, q, id');
      var m := BetterComesBefore(p, c, q, topK, hits, i, Hit(id, NaiveScore(p, c, q, id)));
    }
  }
}
