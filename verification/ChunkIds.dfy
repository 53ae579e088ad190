/**
 The chunk lists of ingest.py's `_build_paper_chunks`: which sections are kept, and the ids that
 the three stores know each chunk by.
 */
module ChunkIds {
  import opened Common

  type Text(==, !new)

  /** A section once chunked: whether it is long enough, and whether it is a reference list. */
  datatype Section = Section(name: string, longEnough: bool, references: bool, chunks: seq<Text>)

  datatype Figure = Figure(kind: string, text: Text)

  datatype Chunk = Chunk(text: Text, section: string, index: nat, id: string)

  /** `str(n)`. */
  function Decimal(n: nat): string {
    if n < 10 then [DIGITS[n]] else Decimal(n / 10) + [DIGITS[n % 10]]
  }

  const DIGITS := "0123456789"

  /** `f"{paper_id}_{section}_{counter}"`. */
  function ChunkId(paper: string, section: string, counter: nat): string {
    paper + "_" + section + "_" + Decimal(counter)
  }

  /** A chunk before it is numbered: its section's name, the part of the id it makes, and its text. */
  datatype Piece = Piece(section: string, idPart: string, text: Text)

  function Number(paper: string, p: Piece, index: nat): Chunk {
    Chunk(p.text, p.section, index, ChunkId(paper, p.idPart, index))
  }

  predicate Kept(s: Section, skipReferences: bool) {
    s.longEnough && !(skipReferences && s.references)
  }

  /** The first `n` chunks of a section; `safe` makes its name fit for an id. */
  function Pieces(safe: string -> string, s: Section, n: nat): seq<Piece>
    requires n <= |s.chunks|
  {
    if n == 0 then [] else Pieces(safe, s, n - 1) + [Piece(s.name, safe(s.name), s.chunks[n - 1])]
  }

  /** The chunks of the kept ones among the first `n` sections, in order. */
  function Gathered(safe: string -> string, sections: seq<Section>, skipReferences: bool, n: nat): seq<Piece>
    requires n <= |sections|
  {
    if n == 0 then []
    else if Kept(sections[n - 1], skipReferences)
    then Gathered(safe, sections, skipReferences, n - 1) + Pieces(safe, sections[n - 1], |sections[n - 1].chunks|)
    else Gathered(safe, sections, skipReferences, n - 1)
  }

  function FigurePieces(figures: seq<Figure>, n: nat): seq<Piece>
    requires n <= |figures|
  {
    if n == 0 then []
    else FigurePieces(figures, n - 1) + [Piece(figures[n - 1].kind, figures[n - 1].kind, figures[n - 1].text)]
  }

  /** The pieces of a paper: without its references, unless nothing else is left. */
  function PaperPieces(safe: string -> string, sections: seq<Section>, figures: seq<Figure>): seq<Piece> {
    var body := Gathered(safe, sections, true, |sections|);
    (if body != [] then body else Gathered(safe, sections, false, |sections|)) + FigurePieces(figures, |figures|)
  }

  /** The chunks carry the pieces, numbered by their places. */
  ghost predicate Numbered(paper: string, pieces: seq<Piece>, chunks: seq<Chunk>) {
    |chunks| == |pieces| && forall i :: 0 <= i < |chunks| ==> chunks[i] == Number(paper, pieces[i], i)
  }

  /**
   Where each chunk goes: those of section `i` follow those of the kept sections before it, in their
   order, if it is long enough and not a reference list to be skipped.
   */
  lemma {:induction false} SectionsInOrder(safe: string -> string, sections: seq<Section>, skipReferences: bool,
                                           n: nat, i: nat)
    requires i < n <= |sections|
    ensures var s, before, after := sections[i], |Gathered(safe, sections, skipReferences, i)|,
                                    |Gathered(safe, sections, skipReferences, i + 1)|;
            && Gathered(safe, sections, skipReferences, 0) == []
            && after == (if s.longEnough && (s.references ==> !skipReferences) then before + |s.chunks| else before)
            && after <= |Gathered(safe, sections, skipReferences, n)|
            && forall k :: before <= k < after ==>
                 Gathered(safe, sections, skipReferences, n)[k] ==
                 Piece(s.name, safe(s.name), s.chunks[k - before])
  {
    PiecesAre(safe, sections[i], |sections[i].chunks|);
    GatheredGrows(safe, sections, skipReferences, i + 1, n);
    hide Pieces;
  }

  lemma {:induction false} GatheredGrows(safe: string -> string, sections: seq<Section>, skipReferences: bool, m: nat,
                                         n: nat)
    requires m <= n <= |sections|
    ensures Gathered(safe, sections, skipReferences, m) <= Gathered(safe, sections, skipReferences, n)
  {
    if m < n {
      GatheredGrows(safe, sections, skipReferences, m, n - 1);
    }
  }

  lemma {:induction false} PiecesAre(safe: string -> string, s: Section, n: nat)
    requires n <= |s.chunks|
    ensures |Pieces(safe, s, n)| == n
    ensures forall k :: 0 <= k < n ==> Pieces(safe, s, n)[k] == Piece(s.name, safe(s.name), s.chunks[k])
  {
    if n == 0 {
    } else {
      PiecesAre(safe, s, n - 1);
    }
  }

  lemma {:induction false} FiguresAre(figures: seq<Figure>, n: nat)
    requires n <= |figures|
    ensures |FigurePieces(figures, n)| == n
    ensures forall k :: 0 <= k < n ==>
              FigurePieces(figures, n)[k] == Piece(figures[k].kind, figures[k].kind, figures[k].text)
  {
    if n == 0 {
    } else {
      FiguresAre(figures, n - 1);
    }
  }

  /** Reference lists are chunked only if no other section has a chunk to keep; figures come last in any case. */
  lemma {:induction false} ReferencesAreALastResort(safe: string -> string, sections: seq<Section>,
                                                    figures: seq<Figure>)
    ensures var others := exists i :: 0 <= i < |sections| && sections[i].longEnough && !sections[i].references &&
                                      sections[i].chunks != [];
            PaperPieces(safe, sections, figures) ==
            Gathered(safe, sections, others, |sections|) + FigurePieces(figures, |figures|)
  {
    SomethingGathered(safe, sections, true, |sections|);
  }

  lemma {:induction false} SomethingGathered(safe: string -> string, sections: seq<Section>, skipReferences: bool,
                                             n: nat)
    requires n <= |sections|
    ensures Gathered(safe, sections, skipReferences, n) != [] <==>
            exists i :: 0 <= i < n && sections[i].longEnough && (sections[i].references ==> !skipReferences) &&
                        sections[i].chunks != []
  {
    if n == 0 {
    } else {
      SomethingGathered(safe, sections, skipReferences, n - 1);
      PiecesAre(safe, sections[n - 1], |sections[n - 1].chunks|);
      hide Pieces;
    }
  }

  /** `_build_chunks`: one pass over the sections, from chunk 0. */
  method BuildChunks(paper: string, safe: string -> string, sections: seq<Section>, skipReferences: bool)
    returns (chunks: seq<Chunk>)
    ensures Numbered(paper, Gathered(safe, sections, skipReferences, |sections|), chunks)
  {
    chunks := [];
    var counter := 0;
    for n := 0 to |sections|
      invariant Numbered(paper, Gathered(safe, sections, skipReferences, n), chunks) && counter == |chunks|
    {
      var s := sections[n];
      ghost var before := Gathered(safe, sections, skipReferences, n);
      if !(skipReferences && s.references) && s.longEnough {
        for k := 0 to |s.chunks|
          invariant Numbered(paper, before + Pieces(safe, s, k), chunks) && counter == |chunks|
        {
          chunks := chunks + [Chunk(s.chunks[k], s.name, counter, ChunkId(paper, safe(s.name), counter))];
          counter := counter + 1;
        }
      }
    }
  }

  /** `_build_paper_chunks`, once the dedup checks have passed; None when there is nothing to store. */
  method BuildPaperChunks(paper: string, safe: string -> string, sections: seq<Section>, figures: seq<Figure>)
    returns (chunks: Option<seq<Chunk>>)
    ensures chunks.None? <==> PaperPieces(safe, sections, figures) == []
    ensures chunks.Some? ==> Numbered(paper, PaperPieces(safe, sections, figures), chunks.value)
    ensures chunks.Some? ==> forall i :: 0 <= i < |chunks.value| ==>
              var piece := PaperPieces(safe, sections, figures)[i];
              chunks.value[i] ==
              Chunk(piece.text, piece.section, i, paper + "_" + piece.idPart + "_" + Decimal(i))
    ensures chunks.Some? ==> forall i, j :: 0 <= i < j < |chunks.value| ==> chunks.value[i].id != chunks.value[j].id
  {
    var all := BuildChunks(paper, safe, sections, true);
    if all == [] {
      all := BuildChunks(paper, safe, sections, false);
    }
    ghost var body := PaperPieces(safe, sections, []);
    var counter := |all|;
    for k := 0 to |figures|
      invariant Numbered(paper, body + FigurePieces(figures, k), all) && counter == |all|
    {
      all := all + [Chunk(figures[k].text, figures[k].kind, counter, ChunkId(paper, figures[k].kind, counter))];
      counter := counter + 1;
    }
    assert PaperPieces(safe, sections, figures) == body + FigurePieces(figures, |figures|);
    if all == [] {
      return None;
    }
    NumbersAreDistinct(paper, PaperPieces(safe, sections, figures), all);
    return Some(all);
  }

  // ----- the ids of a paper are distinct -----

  predicate Digits(s: string) {
    s != "" && forall i :: 0 <= i < |s| ==> '0' <= s[i] <= '9'
  }

  function Value(s: string): nat
    requires Digits(s)
  {
    if |s| == 1 then (s[0] - '0') as nat else 10 * Value(s[..|s| - 1]) + (s[|s| - 1] - '0') as nat
  }

  lemma {:induction false} DigitIsDigit(d: nat)
    requires d < 10
    ensures '0' <= DIGITS[d] <= '9' && (DIGITS[d] - '0') as nat == d
  {
  }

  lemma {:induction false} DecimalReadsBack(n: nat)
    ensures Digits(Decimal(n)) && Value(Decimal(n)) == n
  {
    if n < 10 {
      DigitIsDigit(n);
    } else {
      DecimalReadsBack(n / 10);
      DigitIsDigit(n % 10);
      var s := Decimal(n);
      assert s[..|s| - 1] == Decimal(n / 10);
    }
  }

  /** What follows the last underscore is determined by the whole. */
  lemma {:induction false} LastPart(a: string, d: string, b: string, e: string)
    requires a + "_" + d == b + "_" + e && Digits(d) && Digits(e)
    ensures d == e && a == b
  {
    var s := a + "_" + d;
    assert s[|a|] == '_' && s[|b|] == '_';
    assert forall i :: |a| < i < |s| ==> s[i] == d[i - |a| - 1];
    assert forall i :: |b| < i < |s| ==> s[i] == e[i - |b| - 1];
    assert |a| == |b|;
    assert d == s[|a| + 1..] == e;
    assert a == s[..|a|] == b;
  }

  /** Two chunks of one paper never share an id, whatever their sections are called. */
  lemma {:induction false} CountersTellApart(paper: string, section: string, i: nat, other: string, j: nat)
    requires ChunkId(paper, section, i) == ChunkId(paper, other, j)
    ensures i == j && section == other
  {
    DecimalReadsBack(i);
    DecimalReadsBack(j);
    LastPart(paper + "_" + section, Decimal(i), paper + "_" + other, Decimal(j));
    assert section == (paper + "_" + section)[|paper| + 1..];
    assert other == (paper + "_" + other)[|paper| + 1..];
  }

  lemma {:induction false} NumbersAreDistinct(paper: string, pieces: seq<Piece>, chunks: seq<Chunk>)
    requires Numbered(paper, pieces, chunks)
    ensures forall i, j :: 0 <= i < j < |chunks| ==> chunks[i].id != chunks[j].id
  {
    forall i, j | 0 <= i < j < |chunks| ensures chunks[i].id != chunks[j].id {
      if chunks[i].id == chunks[j].id {
        CountersTellApart(paper, pieces[i].idPart, i, pieces[j].idPart, j);
      }
    }
  }

  /**
   Across papers ids can collide, because the parts are joined by a character they may contain:
   exactly when one paper's id with its section's reads as the other's.
   */
  lemma {:induction false} WhenPapersCollide(p: string, s: string, i: nat, q: string, t: string, j: nat)
    ensures ChunkId(p, s, i) == ChunkId(q, t, j) <==> i == j && p + "_" + s == q + "_" + t
  {
    DecimalReadsBack(i);
    DecimalReadsBack(j);
    if ChunkId(p, s, i) == ChunkId(q, t, j) {
      LastPart(p + "_" + s, Decimal(i), q + "_" + t, Decimal(j));
    }
  }

  lemma {:induction false} PapersDoCollide()
    ensures ChunkId("a", "b_c", 0) == ChunkId("a_b", "c", 0)
  {
    WhenPapersCollide("a", "b_c", 0, "a_b", "c", 0);
  }
}
