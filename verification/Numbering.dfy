/**
 Per-paper citation numbers.  Three loops of the repository number papers on their own:
 `citation_number_map` and `format_context` in rag.py and `_paper_chunk_map` in verify.py.
 All three are stated here against one definition, `Panel`: the chunks that first show a
 title, in order.  The paper at position n - 1 of the panel is the one cited as [n].
 */
module Numbering {
  import opened Common

  // Titles and chunk texts are only compared and passed on.
  type Raw(==, !new)      // a title as stored
  type Title(==, !new)    // a title stripped of blanks, with a blank or missing one read as "Unknown"
  type Chunk(==, !new)

  /** Chunk metadata, as far as citations read it: the stored title, and what it is normalised to. */
  datatype Meta = Meta(raw: Raw, title: Title)

  /** Among the first `n` chunks, those that are the first of their title. */
  ghost function Panel(metas: seq<Meta>, n: nat): seq<Meta>
    requires n <= |metas|
  {
    if n == 0 then []
    else
      var before := Panel(metas, n - 1);
      if NumberOf(before, metas[n - 1].title) != 0 then before else before + [metas[n - 1]]
  }

  /** The citation number of a title; 0 when no chunk on the panel has it. */
  ghost function NumberOf(panel: seq<Meta>, title: Title): nat {
    Search(panel, |panel|, title)
  }

  ghost function Search(panel: seq<Meta>, n: nat, title: Title): nat
    requires n <= |panel|
  {
    if n == 0 then 0 else if panel[n - 1].title == title then n else Search(panel, n - 1, title)
  }

  ghost predicate DistinctTitles(panel: seq<Meta>) {
    forall i, j :: 0 <= i < j < |panel| ==> panel[i].title != panel[j].title
  }

  lemma {:induction false} SearchMeans(panel: seq<Meta>, n: nat, title: Title)
    requires n <= |panel|
    ensures Search(panel, n, title) == 0 ==> forall i :: 0 <= i < n ==> panel[i].title != title
    ensures Search(panel, n, title) > 0 ==>
              Search(panel, n, title) <= n && panel[Search(panel, n, title) - 1].title == title
  {
    if n == 0 {
    } else {
      SearchMeans(panel, n - 1, title);
    }
  }

  lemma {:induction false} NumberedAt(panel: seq<Meta>, k: nat)
    requires DistinctTitles(panel) && k < |panel|
    ensures NumberOf(panel, panel[k].title) == k + 1
  {
    SearchMeans(panel, |panel|, panel[k].title);
  }

  /** A panel never repeats a title, so a title has one number. */
  lemma {:induction false} PanelIsDistinct(metas: seq<Meta>, n: nat)
    requires n <= |metas|
    ensures DistinctTitles(Panel(metas, n))
  {
    if n == 0 {
    } else {
      PanelIsDistinct(metas, n - 1);
      var before := Panel(metas, n - 1);
      SearchMeans(before, |before|, metas[n - 1].title);
    }
  }

  lemma {:induction false} PanelGrows(metas: seq<Meta>, k: nat, n: nat)
    requires k <= n <= |metas|
    ensures Panel(metas, k) <= Panel(metas, n)
  {
    if k == n {
    } else {
      PanelGrows(metas, k, n - 1);
    }
  }

  lemma {:induction false} EveryChunkIsNumbered(metas: seq<Meta>, n: nat, i: nat)
    requires i < n <= |metas|
    ensures NumberOf(Panel(metas, n), metas[i].title) > 0
  {
    var panel, title := Panel(metas, n), metas[i].title;
    var before := Panel(metas, n - 1);
    if i < n - 1 {
      EveryChunkIsNumbered(metas, n - 1, i);
      SearchMeans(before, |before|, title);
      var k := NumberOf(before, title) - 1;
      assert panel[k] == before[k];
      PanelIsDistinct(metas, n);
      NumberedAt(panel, k);
    } else if panel != before {
      PanelIsDistinct(metas, n);
      NumberedAt(panel, |before|);
    }
  }

  /** Chunk `i` is the first to show its title. */
  ghost function Shows(metas: seq<Meta>): nat -> bool {
    (i: nat) => i < |metas| && forall k :: 0 <= k < i ==> metas[k].title != metas[i].title
  }

  ghost function At(metas: seq<Meta>): (nat, Meta) -> bool {
    (i: nat, m: Meta) => i < |metas| && m == metas[i]
  }

  /** The panel without the loop: the chunks that are first to show their title, each at its place in order. */
  lemma {:induction false} PanelIsFirstShown(metas: seq<Meta>, n: nat)
    requires n <= |metas|
    ensures Selects(Panel(metas, n), Shows(metas), n, At(metas))
  {
    if n == 0 {
    } else {
      PanelIsFirstShown(metas, n - 1);
      NumberedIsShown(metas, n - 1);
      hide NumberOf, Shows, Selects;
      SelectsNext(Panel(metas, n - 1), Shows(metas), n - 1, At(metas), Panel(metas, n));
    }
  }

  lemma {:induction false} NumberedIsShown(metas: seq<Meta>, n: nat)
    requires n < |metas|
    ensures Shows(metas)(n) <==> NumberOf(Panel(metas, n), metas[n].title) == 0
  {
    var title := metas[n].title;
    if k :| 0 <= k < n && metas[k].title == title {
      EveryChunkIsNumbered(metas, n, k);
    } else if NumberOf(Panel(metas, n), title) > 0 {
      NumberFound(Panel(metas, n), title);
      TitlesOnPanel(metas, n, NumberOf(Panel(metas, n), title) - 1);
    }
  }

  lemma {:induction false} TitlesOnPanel(metas: seq<Meta>, n: nat, at: nat)
    requires n <= |metas| && at < |Panel(metas, n)|
    ensures exists k :: 0 <= k < n && metas[k].title == Panel(metas, n)[at].title
  {
    if at < |Panel(metas, n - 1)| {
      TitlesOnPanel(metas, n - 1, at);
    }
  }

  /** Numbers are assigned for good: later chunks neither renumber a title nor take its number away. */
  lemma {:induction false} NumbersAreStable(metas: seq<Meta>, k: nat, n: nat, i: nat)
    requires i < k <= n <= |metas|
    ensures NumberOf(Panel(metas, k), metas[i].title) == NumberOf(Panel(metas, n), metas[i].title) > 0
  {
    hide Panel, NumberOf;
    var early, late, title := Panel(metas, k), Panel(metas, n), metas[i].title;
    EveryChunkIsNumbered(metas, k, i);
    PanelGrows(metas, k, n);
    PanelIsDistinct(metas, n);
    NumberFound(early, title);
    var at := NumberOf(early, title) - 1;
    assert late[at] == early[at];
    NumberedAt(late, at);
  }

  lemma {:induction false} NumberFound(panel: seq<Meta>, title: Title)
    requires NumberOf(panel, title) > 0
    ensures NumberOf(panel, title) <= |panel| && panel[NumberOf(panel, title) - 1].title == title
  {
    SearchMeans(panel, |panel|, title);
  }

  // ------------------------------------------------------------ the three loops

  /** A title-to-number dictionary that agrees with a panel. */
  ghost predicate Numbers(titleToNum: map<Title, nat>, panel: seq<Meta>) {
    && |titleToNum| == |panel|
    && (forall t :: t in titleToNum <==> NumberOf(panel, t) != 0)
    && (forall t :: t in titleToNum ==> titleToNum[t] == NumberOf(panel, t))
  }

  lemma {:induction false} NoNumbers(metas: seq<Meta>)
    ensures Numbers(map[], Panel(metas, 0))
  {
  }

  /** Looking a title up, with one past the size as the default, numbers the next chunk. */
  lemma {:induction false} NextNumber(titleToNum: map<Title, nat>, metas: seq<Meta>, i: nat)
    requires i < |metas| && Numbers(titleToNum, Panel(metas, i))
    ensures var num := GetOr(titleToNum, metas[i].title, |titleToNum| + 1);
            && num == NumberOf(Panel(metas, i + 1), metas[i].title)
            && Numbers(titleToNum[metas[i].title := num], Panel(metas, i + 1))
            && Panel(metas, i + 1) == if metas[i].title in titleToNum then Panel(metas, i)
                                      else Panel(metas, i) + [metas[i]]
  {
    var title, panel := metas[i].title, Panel(metas, i);
    if title in titleToNum {
      assert titleToNum[title := titleToNum[title]] == titleToNum;
    } else {
      forall t ensures NumberOf(panel + [metas[i]], t) == if t == title then |panel| + 1 else NumberOf(panel, t) {
        SearchPrefix(panel, metas[i], |panel|, t);
      }
    }
  }

  lemma {:induction false} SearchPrefix(panel: seq<Meta>, m: Meta, n: nat, t: Title)
    requires n <= |panel|
    ensures Search(panel + [m], n, t) == Search(panel, n, t)
  {
    if n == 0 {
    } else {
      SearchPrefix(panel, m, n - 1, t);
    }
  }

  /** `citation_number_map`: number to representative chunk. */
  method CitationNumberMap(metas: seq<Meta>) returns (numToMeta: map<nat, Meta>)
    ensures forall n: nat :: n in numToMeta <==> 1 <= n <= |Panel(metas, |metas|)|
    ensures forall n: nat :: n in numToMeta ==> numToMeta[n] == Panel(metas, |metas|)[n - 1]
  {
    NoNumbers(metas);
    hide NumberOf;
    var titleToNum: map<Title, nat> := map[];
    numToMeta := map[];
    for k := 0 to |metas|
      invariant Numbers(titleToNum, Panel(metas, k))
      invariant forall n: nat :: n in numToMeta <==> 1 <= n <= |Panel(metas, k)|
      invariant forall n: nat :: n in numToMeta ==> numToMeta[n] == Panel(metas, k)[n - 1]
    {
      NextNumber(titleToNum, metas, k);
      var title := metas[k].title;
      if title !in titleToNum {
        var num := |titleToNum| + 1;
        titleToNum := titleToNum[title := num];
        numToMeta := numToMeta[num := metas[k]];
      } else {
        assert titleToNum[title := titleToNum[title]] == titleToNum;
      }
    }
  }

  /** One entry of the prompt context: the chunk under its citation number. */
  datatype Part = Part(num: nat, meta: Meta, chunk: Chunk)

  /** The entry of chunk `i`, numbered by the chunks up to and including it. */
  ghost function PartOf(chunks: seq<Chunk>, metas: seq<Meta>, i: nat): Part
    requires i < |chunks| && i < |metas|
  {
    Part(NumberOf(Panel(metas, i + 1), metas[i].title), metas[i], chunks[i])
  }

  ghost function TotalLength(chunks: seq<Chunk>, metas: seq<Meta>, n: nat, width: Part -> nat): nat
    requires n <= |chunks| && n <= |metas|
  {
    if n == 0 then 0 else TotalLength(chunks, metas, n - 1, width) + width(PartOf(chunks, metas, n - 1))
  }

  /** Each entry adds its own width, under the number of its paper. */
  lemma {:induction false} WidthsAddUp(chunks: seq<Chunk>, metas: seq<Meta>, i: nat, width: Part -> nat)
    requires i < |chunks| && i < |metas|
    ensures TotalLength(chunks, metas, 0, width) == 0
    ensures TotalLength(chunks, metas, i + 1, width) - TotalLength(chunks, metas, i, width) ==
            width(Part(NumberOf(Panel(metas, |metas|), metas[i].title), metas[i], chunks[i]))
  {
    NumbersAreStable(metas, i + 1, |metas|, i);
  }

  /**
   `format_context`: the longest run of leading chunks within both limits, each under the
   number of its paper.
   */
  method FormatContext(chunks: seq<Chunk>, metas: seq<Meta>, maxChunks: int, maxLength: int, width: Part -> nat)
    returns (parts: seq<Part>, chunksUsed: nat)
    ensures |parts| == chunksUsed <= |chunks| && chunksUsed <= |metas|
    ensures forall i :: 0 <= i < chunksUsed ==> parts[i] == PartOf(chunks, metas, i)
    ensures chunksUsed > 0 ==>
              chunksUsed <= maxChunks && TotalLength(chunks, metas, chunksUsed, width) <= maxLength
    ensures chunksUsed < |chunks| && chunksUsed < |metas| ==>
              chunksUsed + 1 > maxChunks || TotalLength(chunks, metas, chunksUsed + 1, width) > maxLength
  {
    NoNumbers(metas);
    hide NumberOf, Panel, Numbers;
    parts := [];
    var totalLength := 0;
    chunksUsed := 0;
    var titleToNum: map<Title, nat> := map[];
    while chunksUsed < |chunks| && chunksUsed < |metas|
      invariant |parts| == chunksUsed <= |chunks| && chunksUsed <= |metas|
      invariant Numbers(titleToNum, Panel(metas, chunksUsed))
      invariant forall i :: 0 <= i < chunksUsed ==> parts[i] == PartOf(chunks, metas, i)
      invariant totalLength == TotalLength(chunks, metas, chunksUsed, width)
      invariant chunksUsed > 0 ==> chunksUsed <= maxChunks && totalLength <= maxLength
    {
      if chunksUsed >= maxChunks {
        break;
      }
      var i := chunksUsed;
      var title := metas[i].title;
      var num := GetOr(titleToNum, title, |titleToNum| + 1);
      NextNumber(titleToNum, metas, i);
      var part := Part(num, metas[i], chunks[i]);
      if totalLength + width(part) > maxLength {
        break;
      }
      titleToNum := titleToNum[title := num];
      parts := parts + [part];
      totalLength := totalLength + width(part);
      chunksUsed := chunksUsed + 1;
    }
  }

  /** The chunks filed under one number, with their original positions, in order. */
  ghost function ChunksOf(chunks: seq<Chunk>, metas: seq<Meta>, n: nat, num: nat): seq<(nat, Chunk)>
    requires n <= |chunks| && n <= |metas|
  {
    if n == 0 then []
    else
      var before := ChunksOf(chunks, metas, n - 1, num);
      if NumberOf(Panel(metas, n), metas[n - 1].title) == num then before + [(n - 1, chunks[n - 1])] else before
  }

  /** `_paper_chunk_map`; without metadata every chunk is its own paper. */
  method PaperChunkMap(chunks: seq<Chunk>, metas: seq<Meta>) returns (numToChunks: map<nat, seq<(nat, Chunk)>>)
    ensures metas == [] ==> forall n: nat :: n in numToChunks <==> 1 <= n <= |chunks|
    ensures metas == [] ==> forall n: nat :: n in numToChunks ==> numToChunks[n] == [(n - 1, chunks[n - 1])]
    ensures metas != [] ==> forall n: nat :: GetOr(numToChunks, n, []) ==
                                             ChunksOf(chunks, metas, Min(|chunks|, |metas|), n)
  {
    numToChunks := map[];
    if metas == [] {
      for i := 0 to |chunks|
        invariant forall n: nat :: n in numToChunks <==> 1 <= n <= i
        invariant forall n: nat :: n in numToChunks ==> numToChunks[n] == [(n - 1, chunks[n - 1])]
      {
        numToChunks := numToChunks[i + 1 := [(i, chunks[i])]];
      }
      return;
    }
    NoNumbers(metas);
    hide NumberOf, Panel, Numbers;
    var titleToNum: map<Title, nat> := map[];
    for k := 0 to Min(|chunks|, |metas|)
      invariant Numbers(titleToNum, Panel(metas, k))
      invariant forall n: nat :: GetOr(numToChunks, n, []) == ChunksOf(chunks, metas, k, n)
    {
      NextNumber(titleToNum, metas, k);
      var num := GetOr(titleToNum, metas[k].title, |titleToNum| + 1);
      titleToNum := titleToNum[metas[k].title := num];
      numToChunks := numToChunks[num := GetOr(numToChunks, num, []) + [(k, chunks[k])]];
    }
  }

  lemma {:induction false} FiledChunks(chunks: seq<Chunk>, metas: seq<Meta>, n: nat, i: nat, num: nat)
    requires i < n <= |chunks| && n <= |metas|
    ensures (i, chunks[i]) in ChunksOf(chunks, metas, n, num) <==> NumberOf(Panel(metas, n), metas[i].title) == num
  {
    hide NumberOf, Panel;
    ChunksBelow(chunks, metas, n - 1, num);
    if i < n - 1 {
      FiledChunks(chunks, metas, n - 1, i, num);
      NumbersAreStable(metas, n - 1, n, i);
    }
  }

  lemma {:induction false} ChunksBelow(chunks: seq<Chunk>, metas: seq<Meta>, n: nat, num: nat)
    requires n <= |chunks| && n <= |metas|
    ensures forall e :: e in ChunksOf(chunks, metas, n, num) ==> e.0 < n
  {
    if n == 0 {
    } else {
      ChunksBelow(chunks, metas, n - 1, num);
    }
  }

  ghost predicate InOrder(chunks: seq<Chunk>, filed: seq<(nat, Chunk)>, n: nat) {
    && (forall a :: 0 <= a < |filed| ==> filed[a].0 < n && filed[a].0 < |chunks| && filed[a].1 == chunks[filed[a].0])
    && (forall a, b :: 0 <= a < b < |filed| ==> filed[a].0 < filed[b].0)
  }

  /** Each with its own position, and in their order. */
  lemma {:induction false} FiledInOrder(chunks: seq<Chunk>, metas: seq<Meta>, n: nat, num: nat)
    requires n <= |chunks| && n <= |metas|
    ensures InOrder(chunks, ChunksOf(chunks, metas, n, num), n)
  {
    if n == 0 {
    } else {
      FiledInOrder(chunks, metas, n - 1, num);
      hide NumberOf, Panel;
      var before := ChunksOf(chunks, metas, n - 1, num);
      assert InOrder(chunks, before + [(n - 1, chunks[n - 1])], n);
    }
  }

  /** A panel is read off the chunks it counts alone. */
  lemma {:induction false} PanelOfPrefix(metas: seq<Meta>, k: nat, n: nat)
    requires n <= k <= |metas|
    ensures Panel(metas[..k], n) == Panel(metas, n)
  {
    if n == 0 {
    } else {
      PanelOfPrefix(metas, k, n - 1);
    }
  }

  /**
   One paper, one number: the number printed for chunk `i` among the `used` chunks of the
   prompt is the number under which the citation panel of just those chunks lists its title, the
   only number under which the faithfulness check of any `n` chunks files that chunk, and the
   number the title has among all retrieved chunks.
   */
  lemma {:induction false} OnePaperOneNumber(chunks: seq<Chunk>, metas: seq<Meta>, used: nat, n: nat, i: nat)
    requires i < used <= n <= |chunks| && n <= |metas|
    ensures var num, panel := PartOf(chunks, metas, i).num, Panel(metas[..used], used);
            && 1 <= num <= |panel|
            && panel[num - 1].title == metas[i].title
            && (forall k :: (i, chunks[i]) in ChunksOf(chunks, metas, n, k) <==> k == num)
            && num == NumberOf(Panel(metas, |metas|), metas[i].title)
  {
    hide NumberOf, Panel;
    PanelOfPrefix(metas, used, used);
    NumbersAreStable(metas, i + 1, used, i);
    NumbersAreStable(metas, i + 1, n, i);
    NumbersAreStable(metas, used, |metas|, i);
    NumberFound(Panel(metas, used), metas[i].title);
    forall k: nat ensures (i, chunks[i]) in ChunksOf(chunks, metas, n, k) <==> k == PartOf(chunks, metas, i).num {
      FiledChunks(chunks, metas, n, i, k);
    }
  }

  /**
   The three loops as one answer runs them: the prompt over the retrieved chunks, the citation
   map over those the prompt shows, and the faithfulness check over all of them again.
   */
  method NumberAnAnswer(chunks: seq<Chunk>, metas: seq<Meta>, maxChunks: int, maxLength: int, width: Part -> nat)
    returns (parts: seq<Part>, cited: map<nat, Meta>, filed: map<nat, seq<(nat, Chunk)>>)
    ensures |parts| <= |chunks| && |parts| <= |metas|
    ensures forall i :: 0 <= i < |parts| ==> parts[i].meta == metas[i] && parts[i].chunk == chunks[i]
    ensures forall i :: 0 <= i < |parts| ==>
              parts[i].num in cited && cited[parts[i].num].title == metas[i].title
    ensures forall i, n: nat :: 0 <= i < |parts| ==> ((i, chunks[i]) in GetOr(filed, n, []) <==> n == parts[i].num)
    ensures forall n :: n in cited ==> exists i :: 0 <= i < |parts| && parts[i].num == n
  {
    var used;
    parts, used := FormatContext(chunks, metas, maxChunks, maxLength, width);
    cited := CitationNumberMap(metas[..used]);
    filed := PaperChunkMap(chunks, metas);
    PanelOfPrefix(metas, used, used);
    hide Panel, NumberOf, ChunksOf, TotalLength;
    forall i | 0 <= i < used
      ensures parts[i].num in cited && cited[parts[i].num].title == metas[i].title
      ensures forall n: nat :: (i, chunks[i]) in GetOr(filed, n, []) <==> n == parts[i].num
    {
      OnePaperOneNumber(chunks, metas, used, Min(|chunks|, |metas|), i);
    }
    forall n | n in cited ensures exists i :: 0 <= i < used && parts[i].num == n {
      var i := PanelIsShown(metas, used, n - 1);
      assert parts[i].num == n;
    }
  }

  /** Each entry of a panel is some chunk's, which is printed under its place. */
  lemma {:induction false} PanelIsShown(metas: seq<Meta>, n: nat, at: nat) returns (i: nat)
    requires n <= |metas| && at < |Panel(metas, n)|
    ensures i < n && NumberOf(Panel(metas, i + 1), metas[i].title) == at + 1
  {
    var before := Panel(metas, n - 1);
    if at < |before| {
      i := PanelIsShown(metas, n - 1, at);
    } else {
      i := n - 1;
      PanelIsDistinct(metas, n);
      NumberedAt(Panel(metas, n), at);
    }
  }
}
