/**
 The BM25 inverted index of bm25_search.py: incremental adds, tombstones, compaction,
 the cache payload and search.  Every method is stated over `Docs()`, the map from live
 chunk id to token bag, so none of the six internal tables shows in a contract.
 */
module Bm25Index {
  import opened Common
  import opened Bm25Spec
  import opened Bm25Ranking

  /** What adding the first `n` (id, text) pairs does to a corpus: later pairs win. */
  ghost function AddMany(c: Corpus, ids: seq<Id>, texts: seq<Text>, n: nat,
                         tokenize: Text -> seq<Term>): Corpus
    requires n <= |ids| && n <= |texts|
  {
    if n == 0 then c
    else AddMany(c, ids, texts, n - 1, tokenize)[ids[n - 1] := multiset(tokenize(texts[n - 1]))]
  }

  /**
   The saved form: everything but the document frequencies and per-slot term sets.  The
   fingerprint of a list of ids depends on how often each id occurs and not on their order.
   */
  datatype Payload = Payload(k1: real, b: real, docIds: seq<Id>, docLens: seq<nat>,
                             postings: map<Term, seq<Posting>>, deleted: set<nat>, totalLen: int,
                             fingerprint: multiset<Id>)

  /** `p` was written from consistent tables `x`. */
  ghost predicate SavedFrom(p: Payload, x: Tables) {
    && Consistent(x)
    && p.docIds == x.ids && p.docLens == x.lens && p.postings == x.postings
    && p.deleted == x.dead && p.totalLen == x.total
    && p.fingerprint == multiset(CorpusOf(x.bags, x.slot).Keys)
  }

  datatype Op =
    | Build(ids: seq<Id>, texts: seq<Text>)
    | Add(ids: seq<Id>, texts: seq<Text>)
    | Remove(gone: seq<Id>)
    | Compact
    | SaveAndLoad

  /** What one operation does to the corpus, with no index in sight. */
  ghost function Denote(op: Op, c: Corpus, tokenize: Text -> seq<Term>): Corpus {
    match op
    case Build(ids, texts) => AddMany(map[], ids, texts, Min(|ids|, |texts|), tokenize)
    case Add(ids, texts) => AddMany(c, ids, texts, Min(|ids|, |texts|), tokenize)
    case Remove(gone) => c - IdSet(gone)
    case Compact => c
    case SaveAndLoad => c
  }

  ghost function DenoteAll(ops: seq<Op>, tokenize: Text -> seq<Term>): Corpus {
    if ops == [] then map[]
    else Denote(ops[|ops| - 1], DenoteAll(ops[..|ops| - 1], tokenize), tokenize)
  }

  class BM25Index {
    const params: Params
    const tokenize: Text -> seq<Term>

    var docIds: seq<Id>
    var docLens: seq<nat>
    var postings: map<Term, seq<Posting>>
    var deleted: set<nat>
    var df: map<Term, int>
    var docTerms: seq<set<Term>>
    var totalLen: int

    ghost var bags: seq<Bag>            // the tokens each slot was indexed with, dead slots included
    ghost var slot: map<Id, nat>    // the live slot of each live id

    /** The tables as one value; Bm25Spec says when they are consistent. */
    ghost function Snapshot(): Tables
      reads this
    {
      Tables(docIds, docLens, postings, deleted, df, docTerms, totalLen, bags, slot)
    }

    ghost predicate Valid()
      reads this
    {
      ValidParams(params) && Consistent(Snapshot())
    }

    /** The corpus this index stands for. */
    ghost function Docs(): Corpus
      reads this
    {
      CorpusOf(bags, slot)
    }

    constructor (params: Params, tokenize: Text -> seq<Term>)
      requires ValidParams(params)
      ensures Valid() && Docs() == map[]
      ensures this.params == params && this.tokenize == tokenize
    {
      this.params := params;
      this.tokenize := tokenize;
      docIds, docLens, postings, deleted := [], [], map[], {};
      df, docTerms, totalLen := map[], [], 0;
      bags, slot := [], map[];
    }

    /** The live document count. */
    function NDocs(): int
      reads this
    {
      |docIds| - |deleted|
    }

    function AvgDl(): real
      reads this
    {
      if NDocs() != 0 then totalLen as real / NDocs() as real else 1.0
    }

    lemma {:induction false} CountsAreTheCorpus()
      requires Valid()
      ensures NDocs() == |Docs()| && AvgDl() == AvgLen(Docs()) && totalLen == CorpusLen(Docs())
      ensures forall t :: GetOr(df, t, 0) == |Containing(Docs(), t)|
    {
      LiveCount(docIds, bags, deleted, slot);
      assert Docs().Keys == slot.Keys;
      SlotsMeasureTheCorpus(docIds, bags, deleted, slot);
      forall t ensures GetOr(df, t, 0) == |Containing(Docs(), t)| {
        SlotsCountTheCorpus(docIds, bags, deleted, slot, t);
      }
    }

    method Tombstone(idx: nat)
      requires Valid() && idx < |docIds| && idx !in deleted
      modifies `deleted, `totalLen, `slot, `df
      ensures Valid()
      ensures deleted == old(deleted) + {idx} && slot == old(slot) - {docIds[idx]}
      ensures Docs() == old(Docs()) - {docIds[idx]}
    {
      ghost var before := Snapshot();
      deleted := deleted + {idx};
      totalLen := totalLen - docLens[idx];
      slot := slot - {docIds[idx]};
      DecrementDf(before, idx);
      KilledTables(before, idx, df);
    }

    method DecrementDf(ghost before: Tables, idx: nat)
      requires Consistent(before) && idx < |before.ids| && idx !in before.dead
      requires df == before.df && docTerms == before.terms
      modifies `df
      ensures forall t :: GetOr(df, t, 0) == GetOr(before.df, t, 0) - (if t in docTerms[idx] then 1 else 0)
    {
      var todo := docTerms[idx];
      while todo != {}
        invariant todo <= docTerms[idx]
        invariant forall t :: GetOr(df, t, 0) ==
                              GetOr(before.df, t, 0) - (if t in docTerms[idx] && t !in todo then 1 else 0)
      {
        var term :| term in todo;
        KilledSlotCounts(before, idx, term);
        assert GetOr(df, term, 0) >= 1;  // the guard of the source never fails
        if GetOr(df, term, 0) != 0 {
          df := df[term := df[term] - 1];
        }
        todo := todo - {term};
      }
    }

    /** Append one document whose id is not live. */
    method Append(docId: Id, text: Text)
      requires Valid() && docId !in slot
      modifies `docIds, `docLens, `docTerms, `postings, `df, `totalLen, `bags, `slot
      ensures Valid()
      ensures slot == old(slot)[docId := |old(docIds)|]
      ensures Docs() == old(Docs())[docId := multiset(tokenize(text))]
    {
      hide Consistent;
      ghost var before := Snapshot();
      var tokens := tokenize(text);
      var idx := |docIds|;
      docIds := docIds + [docId];
      docLens := docLens + [|tokens|];
      totalLen := totalLen + |tokens|;
      var terms := PostTerms(idx, tokens);
      docTerms := docTerms + [terms];
      bags := bags + [multiset(tokens)];
      slot := slot[docId := idx];
      AppendedTables(before, docId, multiset(tokens), postings, df);
      assert terms == TermsOf(multiset(tokens));
    }

    /** Post every distinct term of a document once, with its multiplicity. */
    method PostTerms(idx: nat, tokens: seq<Term>) returns (terms: set<Term>)
      modifies `postings, `df
      ensures terms == TermsOf(multiset(tokens))
      ensures forall t :: GetOr(postings, t, []) == GetOr(old(postings), t, []) +
                            (if t in multiset(tokens) then [Posting(idx, multiset(tokens)[t])] else [])
      ensures forall t :: GetOr(df, t, 0) == GetOr(old(df), t, 0) + (if t in multiset(tokens) then 1 else 0)
    {
      var counts := multiset(tokens);
      terms := {};
      var todo := set t | t in tokens;
      while todo != {}
        invariant todo !! terms && forall t :: t in todo + terms <==> t in counts
        invariant forall t :: GetOr(postings, t, []) ==
                              GetOr(old(postings), t, []) + (if t in terms then [Posting(idx, counts[t])] else [])
        invariant forall t :: GetOr(df, t, 0) == GetOr(old(df), t, 0) + (if t in terms then 1 else 0)
      {
        var term :| term in todo;
        postings := postings[term := GetOr(postings, term, []) + [Posting(idx, counts[term])]];
        df := df[term := GetOr(df, term, 0) + 1];
        terms := terms + {term};
        todo := todo - {term};
      }
    }

    /** The id-to-slot dictionary an add starts from. */
    method LiveSlots() returns (existing: map<Id, nat>)
      requires Valid()
      ensures existing == slot
    {
      existing := map[];
      var i := 0;
      while i < |docIds|
        invariant 0 <= i <= |docIds|
        invariant forall d :: d in existing <==> d in slot && slot[d] < i
        invariant forall d :: d in existing ==> existing[d] == slot[d]
      {
        if i !in deleted {
          existing := existing[docIds[i] := i];
        }
        i := i + 1;
      }
    }

    method AddUnlocked(ids: seq<Id>, texts: seq<Text>)
      requires Valid()
      modifies this
      ensures Valid()
      ensures Docs() == AddMany(old(Docs()), ids, texts, Min(|ids|, |texts|), tokenize)
    {
      var existing := LiveSlots();
      var n := 0;
      while n < |ids| && n < |texts|
        invariant 0 <= n <= |ids| && n <= |texts|
        invariant Valid() && existing == slot
        invariant Docs() == AddMany(old(Docs()), ids, texts, n, tokenize)
      {
        var prior := if ids[n] in existing then Some(existing[ids[n]]) else None;
        existing := existing[ids[n] := |docIds|];
        Replace(prior, ids[n], texts[n]);
        n := n + 1;
      }
    }

    /** One turn of the add loop: tombstone the live copy, if any, then append. */
    method Replace(prior: Option<nat>, docId: Id, text: Text)
      requires Valid()
      requires prior == if docId in slot then Some(slot[docId]) else None
      modifies this
      ensures Valid() && slot == old(slot)[docId := |old(docIds)|]
      ensures Docs() == old(Docs())[docId := multiset(tokenize(text))]
    {
      ghost var before := Docs();
      OldCopy(docId);
      hide *;
      if prior.Some? {
        Tombstone(prior.value);
      }
      assert slot == old(slot) - {docId} && docIds == old(docIds);
      assert Docs() == before - {docId};
      Append(docId, text);
      PutAgain(before, docId, multiset(tokenize(text)));
    }

    lemma {:induction false} OldCopy(docId: Id)
      requires Valid()
      ensures docId in slot ==>
                slot[docId] < |docIds| && slot[docId] !in deleted && docIds[slot[docId]] == docId
      ensures docId !in slot ==> Docs() - {docId} == Docs() && slot - {docId} == slot
    {
    }

    method Build(ids: seq<Id>, texts: seq<Text>)
      requires Valid()
      modifies this
      ensures Valid()
      ensures Docs() == AddMany(map[], ids, texts, Min(|ids|, |texts|), tokenize)
    {
      docIds, docLens, postings, deleted := [], [], map[], {};
      df, docTerms, totalLen := map[], [], 0;
      bags, slot := [], map[];
      assert Docs() == map[];
      AddUnlocked(ids, texts);
    }

    method RemoveDocuments(ids: seq<Id>) returns (removed: nat)
      requires Valid()
      modifies `deleted, `totalLen, `slot, `df
      ensures Valid()
      ensures Docs() == old(Docs()) - IdSet(ids)
      ensures removed == |old(Docs()).Keys * IdSet(ids)| && |deleted| == old(|deleted|) + removed
    {
      hide Consistent, CorpusOf;
      var wanted := IdSet(ids);
      removed := 0;
      ghost var c := Docs();
      ghost var gone: set<Id> := {};
      var i := 0;
      while i < |docIds|
        invariant 0 <= i <= |docIds| && Valid()
        invariant gone <= c.Keys * wanted && removed == |gone| && Docs() == c - gone
        invariant |deleted| == old(|deleted|) + removed
        invariant forall j :: 0 <= j < i && j !in deleted ==> docIds[j] !in wanted
      {
        if docIds[i] in wanted && i !in deleted {
          LiveIdIsThere(i);
          Tombstone(i);
          SubtractOneMore(c, gone, docIds[i]);
          gone := gone + {docIds[i]};
          removed := removed + 1;
        }
        i := i + 1;
      }
      NoneWantedIsLive(wanted);
      assert gone == c.Keys * wanted;
      SubtractKeys(c, wanted);
    }

    lemma {:induction false} LiveIdIsThere(i: nat)
      requires Valid() && i < |docIds| && i !in deleted
      ensures docIds[i] in Docs() && Docs()[docIds[i]] == bags[i]
      ensures i < |docLens| && docLens[i] == |bags[i]|
    {
    }

    lemma {:induction false} NoneWantedIsLive(wanted: set<Id>)
      requires Valid()
      requires forall j :: 0 <= j < |docIds| && j !in deleted ==> docIds[j] !in wanted
      ensures Docs().Keys !! wanted
    {
      assert Docs().Keys == slot.Keys;
      forall d | d in slot ensures d !in wanted {
        assert docIds[slot[d]] == d;
      }
    }

    /** Recompute `df` and `docTerms` from the postings alone: that makes stored tables that are right consistent. */
    method RebuildDerived()
      modifies `df, `docTerms
      ensures ValidParams(params) && old(Stored(Snapshot())) ==> Valid()
    {
      df, docTerms := Derive(postings, |docIds|, deleted, bags);
    }

    static method Derive(postings: map<Term, seq<Posting>>, n: nat, dead: set<nat>, ghost bags: seq<Bag>)
      returns (df: map<Term, int>, docTerms: seq<set<Term>>)
      ensures PostingsOk(postings, bags) && |bags| == n ==> DfOk(df, bags, dead) && TermsOk(docTerms, bags)
    {
      df, docTerms := map[], seq(n, _ => {});
      var todo := postings.Keys;
      ghost var right := PostingsOk(postings, bags) && |bags| == n;
      if right {
        forall t ensures t !in postings ==> LiveDf(bags, dead, t) == 0 && NeverIn(t, bags) {
          PostedAs(postings, bags, dead, t);
        }
      }
      while todo != {}
        invariant todo <= postings.Keys && |docTerms| == n
        invariant right ==> forall i :: 0 <= i < |docTerms| ==> docTerms[i] == TermsOf(bags[i]) - todo
        invariant right ==> forall t :: GetOr(df, t, 0) == if t in todo then 0 else LiveDf(bags, dead, t)
        invariant forall t :: t in todo ==> GetOr(df, t, 0) == 0
      {
        var term :| term in todo;
        if right {
          PostedAs(postings, bags, dead, term);
        }
        df, docTerms := ScanList(term, postings[term], dead, df, docTerms);
        todo := todo - {term};
      }
    }

    /** One pass over a postings list, for one term. */
    static method ScanList(term: Term, plist: seq<Posting>, dead: set<nat>, df0: map<Term, int>, terms0: seq<set<Term>>)
      returns (df': map<Term, int>, terms': seq<set<Term>>)
      requires GetOr(df0, term, 0) == 0
      ensures |terms'| == |terms0|
      ensures forall i :: 0 <= i < |terms0| ==>
                terms'[i] == if i in SlotsIn(plist) then terms0[i] + {term} else terms0[i]
      ensures forall t :: GetOr(df', t, 0) == if t == term then |Renumber(plist, dead)| else GetOr(df0, t, 0)
    {
      df', terms' := df0, terms0;
      var j := 0;
      while j < |plist|
        invariant 0 <= j <= |plist| && |terms'| == |terms0|
        invariant forall i :: 0 <= i < |terms0| ==>
                    terms'[i] == if i in SlotsIn(plist[..j]) then terms0[i] + {term} else terms0[i]
        invariant forall t :: GetOr(df', t, 0) == if t == term then |Renumber(plist[..j], dead)| else GetOr(df0, t, 0)
      {
        var e := plist[j];
        assert plist[..j + 1] == plist[..j] + [e];
        SlotsInAppend(plist[..j], e);
        assert plist[..j + 1][..j] == plist[..j];
        if e.slot < |terms'| {
          terms' := terms'[e.slot := terms'[e.slot] + {term}];
        }
        if e.slot !in dead {
          df' := df'[term := GetOr(df', term, 0) + 1];
        }
        j := j + 1;
      }
      assert plist[..j] == plist;
    }

    function DeletedRatio(): real
      reads this
    {
      if docIds != [] then |deleted| as real / |docIds| as real else 0.0
    }

    /** Drop the tombstoned slots and renumber the survivors. */
    method Compact() returns (freed: nat)
      requires Valid()
      modifies this
      ensures Valid() && deleted == {}
      ensures Docs() == old(Docs())
      ensures freed == |old(deleted)|
    {
      if deleted == {} {
        return 0;
      }
      freed := |deleted|;
      ghost var before := Snapshot();
      var remap, ids', lens', terms' := MoveLiveSlots();
      var newPostings, newDf := RenumberPostings(remap);
      CompactedRows(docLens, docTerms, bags, deleted);
      var sum := SumLens(lens', Survivors(bags, deleted));
      InstallCompacted(before, ids', lens', terms', newPostings, newDf, sum);
    }

    /** Swap the compacted tables in. */
    method InstallCompacted(ghost before: Tables, ids': seq<Id>, lens': seq<nat>, terms': seq<set<Term>>,
                            newPostings: map<Term, seq<Posting>>, newDf: map<Term, int>, sum: int)
      requires Valid() && before == Snapshot()
      requires ids' == Survivors(docIds, deleted) && lens' == Survivors(docLens, deleted)
      requires terms' == Survivors(docTerms, deleted)
      requires forall t :: GetOr(newPostings, t, []) == Renumber(GetOr(postings, t, []), deleted)
      requires forall t :: GetOr(newDf, t, 0) == |GetOr(newPostings, t, [])|
      requires sum == LiveLen(Survivors(bags, deleted), {})
      modifies this
      ensures Valid() && deleted == {} && docIds == ids'
      ensures Docs() == old(Docs())
    {
      hide Consistent;
      docIds, docLens, docTerms := ids', lens', terms';
      postings, df := newPostings, newDf;
      bags, slot := Survivors(bags, deleted), MoveSlots(slot, deleted);
      deleted, totalLen := {}, sum;
      CompactedTables(before, Snapshot());
    }

    /** First half of compaction: the surviving rows, and where each live slot goes. */
    method MoveLiveSlots() returns (remap: map<nat, nat>, ids': seq<Id>, lens': seq<nat>, terms': seq<set<Term>>)
      requires Valid()
      ensures forall i: nat :: i in remap <==> i < |docIds| && i !in deleted
      ensures forall i: nat :: i in remap ==> remap[i] == Rank(i, deleted)
      ensures ids' == Survivors(docIds, deleted) && lens' == Survivors(docLens, deleted)
      ensures terms' == Survivors(docTerms, deleted)
    {
      remap, ids', lens', terms' := map[], [], [], [];
      var k := 0;
      while k < |docIds|
        invariant 0 <= k <= |docIds|
        invariant forall i: nat :: i in remap <==> i < k && i !in deleted
        invariant forall i: nat :: i in remap ==> remap[i] == Rank(i, deleted)
        invariant ids' == Survivors(docIds[..k], deleted) && |ids'| == Rank(k, deleted)
        invariant lens' == Survivors(docLens[..k], deleted) && terms' == Survivors(docTerms[..k], deleted)
      {
        assert docIds[..k + 1][..k] == docIds[..k];
        assert docLens[..k + 1][..k] == docLens[..k];
        assert docTerms[..k + 1][..k] == docTerms[..k];
        if k !in deleted {
          remap := remap[k := |ids'|];
          ids' := ids' + [docIds[k]];
          lens' := lens' + [docLens[k]];
          terms' := terms' + [docTerms[k]];
        }
        k := k + 1;
      }
      assert docIds[..k] == docIds && docLens[..k] == docLens && docTerms[..k] == docTerms;
    }

    /** Second half of compaction: postings lists without their dead entries. */
    method RenumberPostings(remap: map<nat, nat>)
      returns (newPostings: map<Term, seq<Posting>>, newDf: map<Term, int>)
      requires Valid()
      requires forall i: nat :: i in remap <==> i < |docIds| && i !in deleted
      requires forall i: nat :: i in remap ==> remap[i] == Rank(i, deleted)
      ensures forall t :: GetOr(newPostings, t, []) == Renumber(GetOr(postings, t, []), deleted)
      ensures forall t :: GetOr(newDf, t, 0) == |GetOr(newPostings, t, [])|
    {
      newPostings, newDf := map[], map[];
      var todo := postings.Keys;
      while todo != {}
        invariant todo <= postings.Keys
        invariant forall t :: GetOr(newPostings, t, []) ==
                              if t in todo then [] else Renumber(GetOr(postings, t, []), deleted)
        invariant forall t :: GetOr(newDf, t, 0) == |GetOr(newPostings, t, [])|
      {
        var term :| term in todo;
        PostedAs(postings, bags, deleted, term);
        var kept := RenumberList(remap, postings[term]);
        if kept != [] {
          newPostings := newPostings[term := kept];
          newDf := newDf[term := |kept|];
        } else {
          assert GetOr(newPostings, term, []) == [];
        }
        todo := todo - {term};
      }
    }

    method RenumberList(remap: map<nat, nat>, plist: seq<Posting>) returns (kept: seq<Posting>)
      requires forall k :: 0 <= k < |plist| ==> plist[k].slot < |docIds|
      requires forall i: nat :: i in remap <==> i < |docIds| && i !in deleted
      requires forall i: nat :: i in remap ==> remap[i] == Rank(i, deleted)
      ensures kept == Renumber(plist, deleted)
    {
      kept := [];
      var j := 0;
      while j < |plist|
        invariant 0 <= j <= |plist| && kept == Renumber(plist[..j], deleted)
      {
        assert plist[..j + 1][..j] == plist[..j];
        if plist[j].slot in remap {
          kept := kept + [Posting(remap[plist[j].slot], plist[j].tf)];
        }
        j := j + 1;
      }
      assert plist[..j] == plist;
    }

    static method SumLens(lens: seq<nat>, ghost bags: seq<Bag>) returns (sum: int)
      requires LensOk(lens, bags)
      ensures sum == LiveLen(bags, {})
    {
      sum := 0;
      var i := 0;
      while i < |lens|
        invariant 0 <= i <= |lens| && sum == LiveLen(bags[..i], {})
      {
        assert bags[..i + 1][..i] == bags[..i];
        sum := sum + lens[i];
        i := i + 1;
      }
      assert bags[..i] == bags;
    }

    // -------------------------------------------------------------- query

    /** `scores` holds the partial sums over the terms in `done`, for the live slots that have one of them. */
    ghost predicate PartialScores(scores: map<nat, real>, done: set<Term>)
      reads this
      requires Valid()
    {
      && (forall i: nat :: i in scores <==> i < |docIds| && i !in deleted && Shares(bags[i], done))
      && (forall i: nat :: i in scores ==> docIds[i] in Docs() &&
                                           scores[i] == NaiveScore(params, Docs(), done, docIds[i]))
    }

    method Search(query: Text, topK: int) returns (hits: seq<Hit>)
      requires Valid()
      ensures IsTopK(params, Docs(), Distinct(tokenize(query)), topK, hits)
      ensures BestFirst(params, Docs(), Distinct(tokenize(query)), hits)
    {
      CountsAreTheCorpus();
      var queryTerms := tokenize(query);
      if NDocs() == 0 || queryTerms == [] {
        assert Matches(Docs(), Distinct(queryTerms)) == {};
        hits := [];
        TopIsBestFirst(params, Docs(), Distinct(queryTerms), topK, hits);
        return;
      }
      var scores: map<nat, real> := map[];
      var todo := Distinct(queryTerms);
      ghost var done: set<Term> := {};
      while todo != {}
        invariant todo !! done && todo + done == Distinct(queryTerms)
        invariant PartialScores(scores, done)
      {
        var term :| term in todo;
        scores := AddTerm(term, done, scores);
        done := done + {term};
        todo := todo - {term};
      }
      assert done == Distinct(queryTerms);
      hits := Best(scores, Distinct(queryTerms), topK);
      TopIsBestFirst(params, Docs(), Distinct(queryTerms), topK, hits);
    }

    method Best(scores: map<nat, real>, ghost q: set<Term>, topK: int) returns (hits: seq<Hit>)
      requires Valid() && PartialScores(scores, q)
      ensures IsTopK(params, Docs(), q, topK, hits)
    {
      hide Consistent, NaiveScore, Matches;
      var ranked := SortByScore(scores);
      ScoredSlots(scores, q);
      var ids := docIds;
      var all := seq(|ranked|, i requires 0 <= i < |ranked| && ranked[i].0 < |ids| =>
                                 Hit(ids[ranked[i].0], ranked[i].1));
      RankedSlots(params, Docs(), q, topK, ids, slot, scores, ranked, all);
      hits := Take(all, topK);
    }

    /** The scored slots are the matching documents, and their scores are positive. */
    lemma {:induction false} ScoredSlots(scores: map<nat, real>, q: set<Term>)
      requires Valid() && PartialScores(scores, q)
      ensures |scores| == |Matches(Docs(), q)|
      ensures forall i :: i in scores ==> i < |docIds| && docIds[i] in Matches(Docs(), q)
      ensures forall i :: i in scores ==> docIds[i] in slot && slot[docIds[i]] == i
      ensures forall i :: i in scores ==> scores[i] == NaiveScore(params, Docs(), q, docIds[i]) > 0.0
      ensures forall id :: id in Matches(Docs(), q) ==> id in slot && slot[id] in scores && docIds[slot[id]] == id
    {
      forall i: nat | i in scores
        ensures docIds[i] in Matches(Docs(), q) && NaiveScore(params, Docs(), q, docIds[i]) > 0.0
      {
        NaiveScorePositive(params, Docs(), q, docIds[i]);
      }
      AsManyIdsAsSlots(scores.Keys, Matches(Docs(), q), docIds, slot);
    }

    /** Score one query term, touching only its own postings. */
    method AddTerm(term: Term, ghost done: set<Term>, scores0: map<nat, real>) returns (scores: map<nat, real>)
      requires Valid() && term !in done && PartialScores(scores0, done)
      ensures PartialScores(scores, done + {term})
    {
      assert forall i: nat :: i in scores0 ==> i !in deleted;
      hide Consistent, PartialTerm, PartialScores, Contribution, TermScore;
      scores := scores0;
      NothingHandled(scores0, term);
      var plist := GetOr(postings, term, []);
      var d := GetOr(df, term, 0);
      ghost var handled: set<nat> := {};
      PostedDocs(term);
      if plist != [] && d != 0 {
        var j := 0;
        while j < |plist|
          invariant 0 <= j <= |plist| && handled == SlotsIn(plist[..j])
          invariant PartialTerm(scores, scores0, term, handled)
        {
          scores := ScorePosting(term, d, j, scores, scores0, handled);
          PostingAt(term, j);
          handled := handled + {plist[j].slot};
          j := j + 1;
        }
        assert plist[..j] == plist;
      }
      FinishTerm(scores, scores0, term, handled, done);
    }

    /** One turn of the postings loop: a dead slot is skipped. */
    method ScorePosting(term: Term, d: int, j: nat, scores: map<nat, real>, ghost scores0: map<nat, real>,
                        ghost handled: set<nat>) returns (scores': map<nat, real>)
      requires Valid() && PartialTerm(scores, scores0, term, handled)
      requires d == GetOr(df, term, 0) && j < |GetOr(postings, term, [])|
      requires handled == SlotsIn(GetOr(postings, term, [])[..j])
      requires forall i: nat :: i in scores0 ==> i !in deleted
      ensures PartialTerm(scores', scores0, term, handled + {GetOr(postings, term, [])[j].slot})
    {
      hide Consistent, PartialTerm, Contribution, TermScore;
      var idx, tf := GetOr(postings, term, [])[j].slot, GetOr(postings, term, [])[j].tf;
      PostingAt(term, j);
      if idx !in deleted {
        SlotScore(idx, term);
        var gain := TermScore(params, NDocs(), d, tf, docLens[idx], AvgDl());
        ScoreOneMore(scores, scores0, term, handled, idx);
        scores' := scores[idx := GetOr(scores, idx, 0.0) + gain];
      } else {
        SkipDead(scores, scores0, term, handled, idx);
        scores' := scores;
      }
    }

    /** The sums of `scores0`, with the contribution of one term added at the live slots already handled. */
    ghost predicate PartialTerm(scores: map<nat, real>, scores0: map<nat, real>, term: Term, handled: set<nat>)
      reads this
      requires Valid()
    {
      && (forall i: nat :: i in scores <==> i in scores0 || (i in handled && i < |docIds| && i !in deleted))
      && (forall i: nat :: i in scores && i < |docIds| && docIds[i] in Docs() ==>
            scores[i] == GetOr(scores0, i, 0.0) +
              if i in handled then Contribution(params, Docs(), term, docIds[i]) else 0.0)
    }

    lemma {:induction false} NothingHandled(scores0: map<nat, real>, term: Term)
      requires Valid()
      ensures PartialTerm(scores0, scores0, term, {})
    {
    }

    lemma {:induction false} SkipDead(scores: map<nat, real>, scores0: map<nat, real>, term: Term,
                                      handled: set<nat>, idx: nat)
      requires Valid() && PartialTerm(scores, scores0, term, handled) && idx in deleted
      requires forall i: nat :: i in scores0 ==> i !in deleted
      ensures PartialTerm(scores, scores0, term, handled + {idx})
    {
    }

    lemma {:induction false} ScoreOneMore(scores: map<nat, real>, scores0: map<nat, real>, term: Term,
                                          handled: set<nat>, idx: nat)
      requires Valid() && PartialTerm(scores, scores0, term, handled)
      requires idx < |docIds| && idx !in deleted && idx !in handled && docIds[idx] in Docs()
      ensures var gain := Contribution(params, Docs(), term, docIds[idx]);
              PartialTerm(scores[idx := GetOr(scores, idx, 0.0) + gain], scores0, term, handled + {idx})
    {
    }

    /** When a term is skipped, no live document holds it; otherwise its postings list names them all. */
    lemma {:induction false} PostedDocs(term: Term)
      requires Valid()
      ensures forall i: nat :: i in SlotsIn(GetOr(postings, term, [])) <==> i < |docIds| && term in bags[i]
      ensures GetOr(postings, term, []) == [] || GetOr(df, term, 0) == 0 ==>
                forall i: nat :: i < |docIds| && i !in deleted ==> term !in bags[i]
    {
      PostedAs(postings, bags, deleted, term);
      forall i: nat | i < |docIds| && i !in deleted && term in bags[i]
        ensures GetOr(postings, term, []) != [] && GetOr(df, term, 0) != 0
      {
        LiveDfAt(bags, deleted, term, i);
        assert i in SlotsIn(GetOr(postings, term, []));
      }
    }

    lemma {:induction false} PostingAt(term: Term, j: nat)
      requires Valid() && j < |GetOr(postings, term, [])|
      ensures var plist := GetOr(postings, term, []);
              && plist[j].slot < |docIds| && Names(plist[j], bags, term)
              && plist[j].slot !in SlotsIn(plist[..j])
              && SlotsIn(plist[..j + 1]) == SlotsIn(plist[..j]) + {plist[j].slot}
    {
      hide SlotsIn;
      NextPosting(bags, term, j);
    }

    /** The statistics the loop reads are those of the corpus; the average length is not zero here. */
    lemma {:induction false} SlotScore(i: nat, term: Term)
      requires Valid() && i < |docIds| && i !in deleted && term in bags[i]
      ensures i < |docLens| && docIds[i] in Docs()
      ensures AvgDl() > 0.0 && 1 <= GetOr(df, term, 0) <= NDocs()
      ensures TermScore(params, NDocs(), GetOr(df, term, 0), bags[i][term], docLens[i], AvgDl())
              == Contribution(params, Docs(), term, docIds[i])
    {
      hide Consistent;
      LiveIdIsThere(i);
      CountsAreTheCorpus();
      AvgLenPositive(Docs(), docIds[i], term);
      ContributionSign(params, Docs(), term, docIds[i]);
    }

    lemma {:induction false} FinishTerm(scores: map<nat, real>, scores0: map<nat, real>, term: Term,
                                        handled: set<nat>, done: set<Term>)
      requires Valid() && term !in done && PartialScores(scores0, done)
      requires PartialTerm(scores, scores0, term, handled)
      requires forall i: nat :: i < |docIds| && i !in deleted ==> (i in handled <==> term in bags[i])
      ensures PartialScores(scores, done + {term})
    {
      forall i: nat | i < |docIds| && i !in deleted
        ensures i in scores <==> Shares(bags[i], done + {term})
        ensures i in scores ==> docIds[i] in Docs() &&
                                scores[i] == NaiveScore(params, Docs(), done + {term}, docIds[i])
      {
        FinishSlot(i, scores0, term, done);
      }
    }

    lemma {:induction false} FinishSlot(i: nat, scores0: map<nat, real>, term: Term, done: set<Term>)
      requires Valid() && term !in done && PartialScores(scores0, done)
      requires i < |docIds| && i !in deleted
      ensures docIds[i] in Docs()
      ensures Shares(bags[i], done + {term}) <==> i in scores0 || term in bags[i]
      ensures NaiveScore(params, Docs(), done + {term}, docIds[i]) ==
              GetOr(scores0, i, 0.0) + (if term in bags[i] then Contribution(params, Docs(), term, docIds[i]) else 0.0)
    {
      var c, id := Docs(), docIds[i];
      assert id in c && c[id] == bags[i];
      assert done + {term} - {term} == done;
      NaiveScoreSplit(params, c, done + {term}, term, id);
      NaiveScorePositive(params, c, done, id);
    }

    /** Rank the scored slots, best first. */
    static method SortByScore(scores: map<nat, real>) returns (ranked: seq<(nat, real)>)
      ensures |ranked| == |scores|
      ensures forall i :: 0 <= i < |ranked| ==> ranked[i].0 in scores && ranked[i].1 == scores[ranked[i].0]
      ensures forall i, j :: 0 <= i < j < |ranked| ==> ranked[i].0 != ranked[j].0 && ranked[i].1 >= ranked[j].1
      ensures forall k :: k in scores ==> exists i :: 0 <= i < |ranked| && ranked[i].0 == k
    {
      ranked := [];
      var rest := scores;
      while rest != map[]
        invariant |ranked| + |rest| == |scores|
        invariant forall k :: k in rest ==> k in scores && rest[k] == scores[k]
        invariant forall k :: k in scores && k !in rest ==> exists i :: 0 <= i < |ranked| && ranked[i].0 == k
        invariant forall i :: 0 <= i < |ranked| ==>
                    ranked[i].0 in scores && ranked[i].0 !in rest && ranked[i].1 == scores[ranked[i].0]
        invariant forall i, j :: 0 <= i < j < |ranked| ==> ranked[i].0 != ranked[j].0 && ranked[i].1 >= ranked[j].1
        invariant forall i, k :: 0 <= i < |ranked| && k in rest ==> ranked[i].1 >= rest[k]
        decreases |rest|
      {
        var best := MaxKey(rest);
        ghost var before := ranked;
        ranked := ranked + [(best, rest[best])];
        assert ranked[|before|].0 == best;
        assert forall i :: 0 <= i < |before| ==> ranked[i] == before[i];
        rest := rest - {best};
      }
    }

    static method MaxKey(scores: map<nat, real>) returns (best: nat)
      requires scores != map[]
      ensures best in scores && forall k :: k in scores ==> scores[k] <= scores[best]
    {
      best :| best in scores;
      var todo := scores.Keys - {best};
      while todo != {}
        invariant todo <= scores.Keys && best in scores
        invariant forall k :: k in scores && k !in todo ==> scores[k] <= scores[best]
      {
        var k :| k in todo;
        if scores[k] > scores[best] {
          best := k;
        }
        todo := todo - {k};
      }
    }

    // -------------------------------------------------------------- persistence

    method Save() returns (p: Payload)
      requires Valid()
      ensures SavedFrom(p, Snapshot()) && p.k1 == params.k1 && p.b == params.b
    {
      var live: multiset<Id> := multiset{};
      ghost var done: set<Id> := {};
      var i := 0;
      while i < |docIds|
        invariant 0 <= i <= |docIds|
        invariant live == multiset(done) && forall d :: d in done <==> d in slot && slot[d] < i
      {
        if i !in deleted {
          live := live + multiset{docIds[i]};
          done := done + {docIds[i]};
        }
        i := i + 1;
      }
      assert done == Docs().Keys;
      p := Payload(params.k1, params.b, docIds, docLens, postings, deleted, totalLen, live);
    }

    /** Load the stored tables, then recompute the derived ones; nothing checks that an index wrote them. */
    constructor FromPayload(p: Payload, ln: real -> real, tokenize: Text -> seq<Term>, ghost x: Tables)
      ensures SavedFrom(p, x) && ValidParams(Params(p.k1, p.b, ln)) ==> Valid() && Docs() == CorpusOf(x.bags, x.slot)
      ensures params == Params(p.k1, p.b, ln) && this.tokenize == tokenize
    {
      this.params := Params(p.k1, p.b, ln);
      this.tokenize := tokenize;
      docIds, docLens, postings, deleted, totalLen := p.docIds, p.docLens, p.postings, p.deleted, p.totalLen;
      df, docTerms := map[], [];
      bags, slot := x.bags, x.slot;
      new;
      RebuildDerived();
    }

    /** Deleting through the index compacts it once more than a fifth of the slots are dead. */
    method RemoveFromIndex(ids: seq<Id>)
      requires Valid()
      modifies this
      ensures Valid() && Docs() == old(Docs()) - IdSet(ids)
      ensures DeletedRatio() <= 0.2
      ensures var dead := old(|deleted|) + |old(Docs()).Keys * IdSet(ids)|;
              if 5 * dead > old(|docIds|) then deleted == {} else docIds == old(docIds) && |deleted| == dead
    {
      var removed := RemoveDocuments(ids);
      DeletedShare();
      hide Valid, Docs, DeletedRatio;
      if DeletedRatio() > 0.2 {
        var freed := Compact();
        NoTombstones();
      }
    }

    lemma {:induction false} DeletedShare()
      requires Valid()
      ensures DeletedRatio() > 0.2 <==> 5 * |deleted| > |docIds|
    {
      if docIds == [] {
        NoneIsDead();
      } else {
        MoreThanAFifth(|deleted|, |docIds|);
      }
      hide Valid;
    }

    lemma {:induction false} NoneIsDead()
      requires Valid() && docIds == []
      ensures deleted == {}
    {
      assert forall i :: i in deleted ==> i < |docIds|;
      hide Valid;
    }

    lemma {:induction false} NoTombstones()
      requires deleted == {}
      ensures DeletedRatio() == 0.0
    {
    }
  }

  lemma {:induction false} MoreThanAFifth(part: nat, whole: nat)
    requires whole > 0
    ensures part as real / whole as real > 0.2 <==> 5 * part > whole
  {
    var n, fifth := whole as real, 0.2 * whole as real;
    if 5 * part > whole {
      QuotientGrows(fifth, part as real, n);
    } else if 5 * part < whole {
      QuotientGrows(part as real, fifth, n);
    } else {
      assert part as real == fifth;
    }
    FifthOf(n);
  }

  lemma {:induction false} QuotientGrows(x: real, y: real, n: real)
    requires n > 0.0 && x < y
    ensures x / n < y / n
  {
  }

  lemma {:induction false} FifthOf(n: real)
    requires n > 0.0
    ensures (0.2 * n) / n == 0.2
  {
  }

  /** The file is what some index wrote from the tables `x`. */
  ghost predicate Genuine(file: Option<Payload>, x: Tables, ln: real -> real) {
    file.Some? && SavedFrom(file.value, x) && ValidParams(Params(file.value.k1, file.value.b, ln))
  }

  /** A missing or unreadable file reads as None; a payload whose ids differ from the live ones is refused. */
  predicate Accepted(file: Option<Payload>, liveIds: seq<Id>) {
    file.Some? && file.value.fingerprint == multiset(liveIds)
  }

  method LoadCached(file: Option<Payload>, liveIds: seq<Id>, ln: real -> real, tokenize: Text -> seq<Term>,
                    ghost x: Tables)
    returns (r: Option<BM25Index>)
    ensures r.Some? <==> file.Some? && file.value.fingerprint == multiset(liveIds)
    ensures r.Some? ==>
              && fresh(r.value) && r.value.tokenize == tokenize
              && r.value.params == Params(file.value.k1, file.value.b, ln)
    ensures Genuine(file, x, ln) ==>
              (r.Some? <==> multiset(liveIds) == multiset(CorpusOf(x.bags, x.slot).Keys))
    ensures Genuine(file, x, ln) && r.Some? ==>
              && r.value.Valid() && r.value.Docs() == CorpusOf(x.bags, x.slot)
              && r.value.Docs().Keys == IdSet(liveIds)
  {
    if file.None? {
      return None;
    }
    var idx := new BM25Index.FromPayload(file.value, ln, tokenize, x);
    if file.value.fingerprint != multiset(liveIds) {
      return None;
    }
    if Genuine(file, x, ln) {
      SameIds(CorpusOf(x.bags, x.slot).Keys, liveIds);
    }
    return Some(idx);
  }

  lemma {:induction false} SameIds(keys: set<Id>, ids: seq<Id>)
    requires multiset(ids) == multiset(keys)
    ensures keys == IdSet(ids)
  {
    forall d ensures d in keys <==> d in ids {
      assert d in multiset(ids) <==> d in ids;
    }
  }

  /**
   The index a query uses: the cached one if its ids match the collection, else a fresh build.
   The ids are all that is compared, so a genuine cache is as good as a build exactly when it was
   refused or was written from a corpus with these texts.
   */
  method GetOrBuildIndex(ids: seq<Id>, texts: seq<Text>, file: Option<Payload>, params: Params,
                         tokenize: Text -> seq<Term>, ghost x: Tables) returns (r: Option<BM25Index>)
    requires ValidParams(params) && |ids| == |texts|
    ensures r.Some? <==> ids != []
    ensures r.Some? ==> fresh(r.value) && r.value.tokenize == tokenize
    ensures r.Some? ==>
              r.value.params == if Accepted(file, ids) then Params(file.value.k1, file.value.b, params.ln) else params
    ensures r.Some? && !Accepted(file, ids) ==>
              r.value.Valid() && r.value.Docs() == AddMany(map[], ids, texts, |ids|, tokenize)
    ensures r.Some? && Genuine(file, x, params.ln) ==>
              && r.value.Valid() && r.value.Docs().Keys == IdSet(ids)
              && (Accepted(file, ids) ==> r.value.Docs() == CorpusOf(x.bags, x.slot))
              && (r.value.Docs() == AddMany(map[], ids, texts, |ids|, tokenize) <==>
                    || !Accepted(file, ids)
                    || CorpusOf(x.bags, x.slot) == AddMany(map[], ids, texts, |ids|, tokenize))
  {
    if ids == [] {
      return None;
    }
    r := LoadCached(file, ids, params.ln, tokenize, x);
    if r.None? {
      var idx := new BM25Index(params, tokenize);
      idx.Build(ids, texts);
      AddManyKeys(map[], ids, texts, |ids|, tokenize);
      assert ids[..|ids|] == ids;
      r := Some(idx);
    }
  }

  /** A text edited under an unchanged id: the index saved before is accepted, and serves the old text. */
  method OldTextIsServed(id: Id, before: Text, after: Text, params: Params, tokenize: Text -> seq<Term>)
    returns (r: BM25Index)
    requires ValidParams(params) && multiset(tokenize(before)) != multiset(tokenize(after))
    ensures fresh(r) && r.Valid() && r.Docs() == map[id := multiset(tokenize(before))]
    ensures r.Docs() != AddMany(map[], [id], [after], 1, tokenize)
  {
    var p, x := SaveOne(id, before, params, tokenize);
    OneDocument(id, before, tokenize);
    OneDocument(id, after, tokenize);
    hide *;
    var found := GetOrBuildIndex([id], [after], Some(p), params, tokenize, x);
    r := found.value;
  }

  method SaveOne(id: Id, text: Text, params: Params, tokenize: Text -> seq<Term>) returns (p: Payload, ghost x: Tables)
    requires ValidParams(params)
    ensures Genuine(Some(p), x, params.ln) && Accepted(Some(p), [id])
    ensures CorpusOf(x.bags, x.slot) == map[id := multiset(tokenize(text))]
  {
    hide AddMany, Consistent, Stored;
    var idx := new BM25Index(params, tokenize);
    idx.Build([id], [text]);
    OneDocument(id, text, tokenize);
    p := idx.Save();
    x := idx.Snapshot();
  }

  lemma {:induction false} OneDocument(id: Id, text: Text, tokenize: Text -> seq<Term>)
    ensures AddMany(map[], [id], [text], 1, tokenize) == map[id := multiset(tokenize(text))]
    ensures multiset([id]) == multiset({id})
  {
    assert AddMany(map[], [id], [text], 0, tokenize) == map[];
  }

  lemma {:induction false} AddManyKeys(c: Corpus, ids: seq<Id>, texts: seq<Text>, n: nat, tokenize: Text -> seq<Term>)
    requires n <= |ids| && n <= |texts|
    ensures AddMany(c, ids, texts, n, tokenize).Keys == c.Keys + IdSet(ids[..n])
  {
    if n == 0 {
    } else {
      AddManyKeys(c, ids, texts, n - 1, tokenize);
      assert ids[..n] == ids[..n - 1] + [ids[n - 1]];
    }
  }

  /**
   Incremental equals rebuild: after any sequence of operations, save-and-load included, the
   index stands for the corpus those operations denote.  `Search` is stated over that corpus
   alone, so it ranks as an index freshly built from it would (`FreshBuildSpellsTheCorpus`).
   */
  method Run(ops: seq<Op>, params: Params, tokenize: Text -> seq<Term>) returns (idx: BM25Index)
    requires ValidParams(params)
    ensures fresh(idx) && idx.Valid() && idx.Docs() == DenoteAll(ops, tokenize)
    ensures idx.params == params && idx.tokenize == tokenize
  {
    idx := new BM25Index(params, tokenize);
    assert ops[..0] == [];
    for k := 0 to |ops|
      invariant fresh(idx) && idx.Valid() && idx.params == params && idx.tokenize == tokenize
      invariant idx.Docs() == DenoteAll(ops[..k], tokenize)
    {
      assert ops[..k + 1][..k] == ops[..k];
      idx := Perform(idx, ops[k]);
    }
    assert ops[..|ops|] == ops;
  }

  method Perform(idx: BM25Index, op: Op) returns (idx': BM25Index)
    requires idx.Valid()
    modifies idx
    ensures idx' == idx || fresh(idx')
    ensures idx'.Valid() && idx'.params == idx.params && idx'.tokenize == idx.tokenize
    ensures idx'.Docs() == Denote(op, old(idx.Docs()), idx.tokenize)
  {
    if op.SaveAndLoad? {
      var p := idx.Save();
      idx' := new BM25Index.FromPayload(p, idx.params.ln, idx.tokenize, idx.Snapshot());
      return;
    }
    idx' := idx;
    match op
    case Build(ids, texts) => idx.Build(ids, texts);
    case Add(ids, texts) => idx.AddUnlocked(ids, texts);
    case Remove(gone) => var n := idx.RemoveDocuments(gone);
    case Compact => var n := idx.Compact();
  }

  lemma {:induction false} PutAgain(c: Corpus, id: Id, bag: Bag)
    ensures (c - {id})[id := bag] == c[id := bag]
  {
  }

  /** Adding pairs one by one: the last text of an id counts, and every other document stays. */
  lemma {:induction false} LastTextCounts(c: Corpus, ids: seq<Id>, texts: seq<Text>, n: nat,
                                          tokenize: Text -> seq<Term>, i: nat)
    requires i < n <= |ids| && n <= |texts| && ids[i] !in ids[i + 1..n]
    ensures var all := AddMany(c, ids, texts, n, tokenize);
            && ids[i] in all && all[ids[i]] == multiset(tokenize(texts[i]))
            && (forall id :: id in all <==> id in c || id in ids[..n])
            && (forall id :: id in c && id !in ids[..n] ==> all[id] == c[id])
  {
    AddManyKeys(c, ids, texts, n, tokenize);
    if i < n - 1 {
      assert ids[i + 1..n] == ids[i + 1..n - 1] + [ids[n - 1]];
      LastTextCounts(c, ids, texts, n - 1, tokenize, i);
    }
    OthersStay(c, ids, texts, n, tokenize);
  }

  lemma {:induction false} OthersStay(c: Corpus, ids: seq<Id>, texts: seq<Text>, n: nat, tokenize: Text -> seq<Term>)
    requires n <= |ids| && n <= |texts|
    ensures var all := AddMany(c, ids, texts, n, tokenize);
            forall id :: id in c && id !in ids[..n] ==> id in all && all[id] == c[id]
  {
    if n == 0 {
    } else {
      OthersStay(c, ids, texts, n - 1, tokenize);
      assert ids[..n] == ids[..n - 1] + [ids[n - 1]];
    }
  }

  /** What the operations do to the corpus, id by id. */
  lemma {:induction false} OperationsMean(op: Op, c: Corpus, tokenize: Text -> seq<Term>, id: Id)
    ensures var all := Denote(op, c, tokenize);
            match op
            case Build(ids, texts) =>
              all == Denote(Add(ids, texts), map[], tokenize) &&
              (id in all <==> id in ids[..Min(|ids|, |texts|)])
            case Add(ids, texts) =>
              && (id in all <==> id in c || id in ids[..Min(|ids|, |texts|)])
              && all == AddMany(c, ids, texts, Min(|ids|, |texts|), tokenize)
            case Remove(gone) => (id in all <==> id in c && id !in gone) && (id in all ==> all[id] == c[id])
            case _ => all == c
  {
    match op
    case Build(ids, texts) => AddManyKeys(map[], ids, texts, Min(|ids|, |texts|), tokenize);
    case Add(ids, texts) => AddManyKeys(c, ids, texts, Min(|ids|, |texts|), tokenize);
    case _ =>
  }

  /** The first `n` pairs have ids of their own and are the documents of the corpus. */
  ghost predicate Spells(c: Corpus, ids: seq<Id>, texts: seq<Text>, n: nat, tokenize: Text -> seq<Term>)
    requires n <= |ids| && n <= |texts|
  {
    && (forall i, j :: 0 <= i < j < n ==> ids[i] != ids[j])
    && c.Keys == IdSet(ids[..n])
    && (forall i :: 0 <= i < n ==> c[ids[i]] == multiset(tokenize(texts[i])))
  }

  /** Building from scratch, from the surviving documents in any order, spells the same corpus. */
  lemma {:induction false} FreshBuildSpellsTheCorpus(c: Corpus, ids: seq<Id>, texts: seq<Text>, n: nat,
                                                     tokenize: Text -> seq<Term>)
    requires n <= |ids| && n <= |texts| && Spells(c, ids, texts, n, tokenize)
    ensures AddMany(map[], ids, texts, n, tokenize) == c
  {
    hide Spells;
    if n == 0 {
      NothingSpelled(c, ids, texts, tokenize);
    } else {
      WithoutLast(c, ids, texts, n, tokenize);
      FreshBuildSpellsTheCorpus(c - {ids[n - 1]}, ids, texts, n - 1, tokenize);
    }
  }

  lemma {:induction false} NothingSpelled(c: Corpus, ids: seq<Id>, texts: seq<Text>, tokenize: Text -> seq<Term>)
    requires Spells(c, ids, texts, 0, tokenize)
    ensures c == map[]
  {
  }

  lemma {:induction false} WithoutLast(c: Corpus, ids: seq<Id>, texts: seq<Text>, n: nat, tokenize: Text -> seq<Term>)
    requires 0 < n <= |ids| && n <= |texts| && Spells(c, ids, texts, n, tokenize)
    ensures var last := ids[n - 1];
            && Spells(c - {last}, ids, texts, n - 1, tokenize)
            && c == (c - {last})[last := multiset(tokenize(texts[n - 1]))]
  {
    var last := ids[n - 1];
    assert ids[..n] == ids[..n - 1] + [last];
    assert last !in ids[..n - 1];
    assert last in ids[..n];
    forall i | 0 <= i < n - 1 ensures ids[i] in IdSet(ids[..n - 1]) {
      assert ids[i] in ids[..n - 1];
    }
  }
}
