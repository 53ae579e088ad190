/**
 Citation markers: the compaction of an answer (rag.py, `compact_citations`) and the
 document-wide renumbering of a report (report_runner.py).  An answer is a sequence of
 segments, text or marker.  `Meaning` reads off the titles each marker names, given the
 panel its numbers refer to; both renumbering passes are shown to keep it.
 */
module Citations {
  import opened Common
  import opened Numbering

  // Of the characters around a marker, the code looks only at whether there are any and at newlines.
  type Words(==, !new)

  /** The blanks a marker swallows when it is dropped: do they begin with, or contain, a newline? */
  datatype Lead = Lead(blanks: Words, opensLine: bool, breaksLine: bool)

  datatype Seg =
    | Text(words: Words, empty: bool, opensLine: bool)
    | Marker(lead: Lead, nums: seq<nat>)
    | Gap(newline: bool)    // what a dropped marker leaves: a newline or nothing

  datatype Citation = Citation(number: nat, raw: Raw)

  // ------------------------------------------------------------ rewriting markers

  /** The first `n` numbers sent through `m`; numbers without an image and repetitions vanish. */
  ghost function Renumbered(nums: seq<nat>, m: map<nat, nat>, n: nat): seq<nat>
    requires n <= |nums|
  {
    if n == 0 then []
    else
      var before := Renumbered(nums, m, n - 1);
      if nums[n - 1] in m && m[nums[n - 1]] !in before then before + [m[nums[n - 1]]] else before
  }

  /** Whether the original text from segment `j` on is empty or begins a new line. */
  predicate EndsLine(answer: seq<Seg>, j: nat)
    decreases |answer| - j
  {
    if j >= |answer| then true
    else
      match answer[j]
      case Text(_, empty, opensLine) => if empty then EndsLine(answer, j + 1) else opensLine
      case Marker(lead, _) => lead.opensLine
      case Gap(newline) => if newline then true else EndsLine(answer, j + 1)
  }

  /** A marker alone on its line takes the newline before it along; otherwise that newline is put back. */
  function GapFor(answer: seq<Seg>, i: nat, lead: Lead): Seg {
    Gap(lead.breaksLine && !EndsLine(answer, i + 1))
  }

  ghost function RewriteSeg(answer: seq<Seg>, m: map<nat, nat>, i: nat): Seg
    requires i < |answer|
  {
    match answer[i]
    case Marker(lead, nums) =>
      var mapped := Renumbered(nums, m, |nums|);
      if mapped == [] then GapFor(answer, i, lead) else Marker(lead, mapped)
    case _ => answer[i]
  }

  /** Segments keep their places: text stays, a marker is renumbered or leaves its gap. */
  ghost predicate Rewritten(answer: seq<Seg>, m: map<nat, nat>, out: seq<Seg>) {
    |out| == |answer| && forall i :: 0 <= i < |answer| ==> out[i] == RewriteSeg(answer, m, i)
  }

  /** The substitution that `compact_citations` and `_remap_markers` run with their own maps. */
  method RewriteMarkers(answer: seq<Seg>, m: map<nat, nat>) returns (out: seq<Seg>)
    ensures Rewritten(answer, m, out)
  {
    out := [];
    for i := 0 to |answer|
      invariant |out| == i && forall j :: 0 <= j < i ==> out[j] == RewriteSeg(answer, m, j)
    {
      var seg := answer[i];
      if seg.Marker? {
        var mapped := MapNumbers(seg.nums, m);
        seg := if mapped == [] then GapFor(answer, i, seg.lead) else Marker(seg.lead, mapped);
      }
      out := out + [seg];
    }
  }

  method MapNumbers(nums: seq<nat>, m: map<nat, nat>) returns (mapped: seq<nat>)
    ensures mapped == Renumbered(nums, m, |nums|)
  {
    mapped := [];
    for k := 0 to |nums|
      invariant mapped == Renumbered(nums, m, k)
    {
      if nums[k] in m && m[nums[k]] !in mapped {
        mapped := mapped + [m[nums[k]]];
      }
    }
  }

  // ------------------------------------------------------------ meaning

  /** The distinct titles that the first `n` numbers name on a panel. */
  ghost function Named(nums: seq<nat>, panel: seq<Raw>, n: nat): seq<Raw>
    requires n <= |nums|
  {
    if n == 0 then []
    else
      var before := Named(nums, panel, n - 1);
      if 1 <= nums[n - 1] <= |panel| && panel[nums[n - 1] - 1] !in before then before + [panel[nums[n - 1] - 1]]
      else before
  }

  /** For each of the first `n` segments that is a marker naming any paper: the titles it names. */
  ghost function Meaning(answer: seq<Seg>, panel: seq<Raw>, n: nat): seq<seq<Raw>>
    requires n <= |answer|
  {
    if n == 0 then []
    else
      var before := Meaning(answer, panel, n - 1);
      match answer[n - 1]
      case Marker(_, nums) =>
        if Named(nums, panel, |nums|) == [] then before else before + [Named(nums, panel, |nums|)]
      case _ => before
  }

  /** `m` sends each number of `panel`, among those used, to a number of `panel'` with the same title. */
  ghost predicate Translates(m: map<nat, nat>, used: set<nat>, panel: seq<Raw>, panel': seq<Raw>) {
    forall k :: k in used ==>
      && (k in m <==> 1 <= k <= |panel|)
      && (k in m ==> 1 <= m[k] <= |panel'| && panel'[m[k] - 1] == panel[k - 1])
  }

  ghost function NumSet(nums: seq<nat>): set<nat> {
    set k | k in nums
  }

  ghost function Cited(answer: seq<Seg>): set<nat> {
    set i, k | 0 <= i < |answer| && answer[i].Marker? && 0 <= k < |answer[i].nums| :: answer[i].nums[k]
  }

  lemma {:induction false} NamedRenumbered(nums: seq<nat>, m: map<nat, nat>, panel: seq<Raw>, panel': seq<Raw>, n: nat)
    requires n <= |nums| && Translates(m, NumSet(nums), panel, panel')
    ensures var out := Renumbered(nums, m, n);
            && Named(out, panel', |out|) == Named(nums, panel, n)
            && (out == [] <==> Named(nums, panel, n) == [])
            && (forall x :: x in out ==> 1 <= x <= |panel'| && panel'[x - 1] in Named(nums, panel, n))
  {
    if n == 0 {
    } else {
      NamedRenumbered(nums, m, panel, panel', n - 1);
      var before := Renumbered(nums, m, n - 1);
      var k := nums[n - 1];
      assert k in NumSet(nums);
      if k in m && m[k] !in before {
        NamedPrefix(before, m[k], panel', |before|);
      }
    }
  }

  lemma {:induction false} NamedPrefix(nums: seq<nat>, k: nat, panel: seq<Raw>, n: nat)
    requires n <= |nums|
    ensures Named(nums + [k], panel, n) == Named(nums, panel, n)
  {
    if n == 0 {
    } else {
      NamedPrefix(nums, k, panel, n - 1);
    }
  }

  /** Any renumbering that translates the numbers an answer uses keeps what every marker means. */
  lemma {:induction false} RenumberingKeepsMeaning(answer: seq<Seg>, m: map<nat, nat>, out: seq<Seg>,
                                                   panel: seq<Raw>, panel': seq<Raw>, n: nat)
    requires n <= |answer| && Rewritten(answer, m, out) && Translates(m, Cited(answer), panel, panel')
    ensures Meaning(out, panel', n) == Meaning(answer, panel, n)
  {
    if n == 0 {
    } else {
      RenumberingKeepsMeaning(answer, m, out, panel, panel', n - 1);
      assert out[n - 1] == RewriteSeg(answer, m, n - 1);
      if answer[n - 1].Marker? {
        var nums := answer[n - 1].nums;
        forall k | k in nums ensures k in Cited(answer) {
          var j :| 0 <= j < |nums| && nums[j] == k;
        }
        NamedRenumbered(nums, m, panel, panel', |nums|);
      }
    }
  }

  lemma {:induction false} RenumberedHas(nums: seq<nat>, m: map<nat, nat>, n: nat, x: nat)
    requires n <= |nums|
    ensures x in Renumbered(nums, m, n) <==> exists k :: 0 <= k < n && nums[k] in m && m[nums[k]] == x
  {
    if n == 0 {
    } else {
      RenumberedHas(nums, m, n - 1, x);
    }
  }

  /** The numbers left in the rewritten answer are exactly the images of the resolvable ones. */
  lemma {:induction false} CitedAfterRewrite(answer: seq<Seg>, m: map<nat, nat>, out: seq<Seg>, x: nat)
    requires Rewritten(answer, m, out)
    ensures x in Cited(out) <==> exists k :: k in Cited(answer) && k in m && m[k] == x
  {
    if x in Cited(out) {
      var i, j :| 0 <= i < |out| && out[i].Marker? && 0 <= j < |out[i].nums| && out[i].nums[j] == x;
      assert out[i] == RewriteSeg(answer, m, i);
      RenumberedHas(answer[i].nums, m, |answer[i].nums|, x);
      var k :| 0 <= k < |answer[i].nums| && answer[i].nums[k] in m && m[answer[i].nums[k]] == x;
      assert answer[i].nums[k] in Cited(answer);
    }
    if k :| k in Cited(answer) && k in m && m[k] == x {
      var i, j :| 0 <= i < |answer| && answer[i].Marker? && 0 <= j < |answer[i].nums| && answer[i].nums[j] == k;
      assert out[i] == RewriteSeg(answer, m, i);
      RenumberedHas(answer[i].nums, m, |answer[i].nums|, x);
      var y :| 0 <= y < |out[i].nums| && out[i].nums[y] == x;
    }
  }

  /** Place `k` is the first whose number has this image. */
  ghost function Brings(nums: seq<nat>, m: map<nat, nat>): nat -> bool {
    (k: nat) => k < |nums| && nums[k] in m && forall j :: 0 <= j < k && nums[j] in m ==> m[nums[j]] != m[nums[k]]
  }

  /** The images in the order of their first place, each once. */
  lemma {:induction false} RenumberedInOrder(nums: seq<nat>, m: map<nat, nat>, n: nat)
    requires n <= |nums|
    ensures Selects(Renumbered(nums, m, n), Brings(nums, m), n, Image(nums, m))
  {
    if n == 0 {
    } else {
      RenumberedInOrder(nums, m, n - 1);
      BringsExactly(nums, m, n - 1);
      hide Brings, Selects;
      SelectsNext(Renumbered(nums, m, n - 1), Brings(nums, m), n - 1, Image(nums, m), Renumbered(nums, m, n));
    }
  }

  ghost function Image(nums: seq<nat>, m: map<nat, nat>): (nat, nat) -> bool {
    (k: nat, x: nat) => k < |nums| && nums[k] in m && x == m[nums[k]]
  }

  lemma {:induction false} BringsExactly(nums: seq<nat>, m: map<nat, nat>, n: nat)
    requires n < |nums|
    ensures Brings(nums, m)(n) <==> nums[n] in m && m[nums[n]] !in Renumbered(nums, m, n)
  {
    if nums[n] in m {
      RenumberedHas(nums, m, n, m[nums[n]]);
    }
  }

  /** The titles named are those at the numbers on the panel, none twice. */
  lemma {:induction false} NamedExactly(nums: seq<nat>, panel: seq<Raw>, n: nat)
    requires n <= |nums|
    ensures forall t :: t in Named(nums, panel, n) <==>
              exists k :: 0 <= k < n && 1 <= nums[k] <= |panel| && panel[nums[k] - 1] == t
    ensures forall i, j :: 0 <= i < j < |Named(nums, panel, n)| ==>
              Named(nums, panel, n)[i] != Named(nums, panel, n)[j]
  {
    if n == 0 {
    } else {
      NamedExactly(nums, panel, n - 1);
    }
  }

  /** Segment `i` is a marker with a number on a panel of this size. */
  ghost function Means(answer: seq<Seg>, size: nat): nat -> bool {
    (i: nat) => i < |answer| && answer[i].Marker? &&
         exists k :: 0 <= k < |answer[i].nums| && 1 <= answer[i].nums[k] <= size
  }

  /** What an answer means, marker by marker: each that resolves, in its place among those that do. */
  lemma {:induction false} MeaningInOrder(answer: seq<Seg>, panel: seq<Raw>, n: nat)
    requires n <= |answer|
    ensures Selects(Meaning(answer, panel, n), Means(answer, |panel|), n, TitlesAt(answer, panel))
  {
    if n == 0 {
    } else {
      MeaningInOrder(answer, panel, n - 1);
      MeansExactly(answer, panel, n - 1);
      hide Means, Named, Selects;
      SelectsNext(Meaning(answer, panel, n - 1), Means(answer, |panel|), n - 1, TitlesAt(answer, panel),
                Meaning(answer, panel, n));
    }
  }

  ghost function TitlesAt(answer: seq<Seg>, panel: seq<Raw>): (nat, seq<Raw>) -> bool {
    (i: nat, titles: seq<Raw>) =>
      i < |answer| && answer[i].Marker? && titles == Named(answer[i].nums, panel, |answer[i].nums|)
  }

  lemma {:induction false} MeansExactly(answer: seq<Seg>, panel: seq<Raw>, i: nat)
    requires i < |answer|
    ensures Means(answer, |panel|)(i) <==>
            answer[i].Marker? && Named(answer[i].nums, panel, |answer[i].nums|) != []
  {
    if answer[i].Marker? {
      var nums := answer[i].nums;
      NamedExactly(nums, panel, |nums|);
      var named := Named(nums, panel, |nums|);
      if named != [] {
        assert named[0] in named;
      }
      if k :| 0 <= k < |nums| && 1 <= nums[k] <= |panel| {
        assert panel[nums[k] - 1] in named;
      }
    }
  }

  // ------------------------------------------------------------ places

  /** Nothing is printed for this segment. */
  predicate Blank(seg: Seg) {
    (seg.Text? && seg.empty) || seg == Gap(false)
  }

  /** What is printed for it begins with a newline. */
  predicate OpensLine(seg: Seg) {
    match seg
    case Text(_, _, opensLine) => opensLine
    case Marker(lead, _) => lead.opensLine
    case Gap(newline) => newline
  }

  /** The first thing printed from segment `j` on continues the line. */
  ghost predicate LineGoesOn(answer: seq<Seg>, j: nat) {
    exists k :: j <= k < |answer| && !Blank(answer[k]) && !OpensLine(answer[k]) &&
                forall m :: j <= m < k ==> Blank(answer[m])
  }

  lemma {:induction false} EndsLineMeans(answer: seq<Seg>, j: nat)
    ensures EndsLine(answer, j) <==> !LineGoesOn(answer, j)
    decreases |answer| - j
  {
    if j >= |answer| {
    } else if Blank(answer[j]) {
      EndsLineMeans(answer, j + 1);
      if k :| j + 1 <= k < |answer| && !Blank(answer[k]) && !OpensLine(answer[k]) &&
              forall m :: j + 1 <= m < k ==> Blank(answer[m])
      {
        assert forall m :: j <= m < k ==> Blank(answer[m]);
      }
    } else if !OpensLine(answer[j]) {
      assert LineGoesOn(answer, j);
    }
  }

  /**
   Text and gaps stay as they are.  A marker with a number up to `size` stays a marker behind its
   blanks; any other leaves a newline exactly when it swallowed one and the line would go on, so
   that neighbouring lines never join and no empty line is left.
   */
  ghost predicate SegKept(answer: seq<Seg>, i: nat, seg: Seg, size: nat)
    requires i < |answer|
  {
    match answer[i]
    case Marker(lead, nums) =>
      if exists k :: 0 <= k < |nums| && 1 <= nums[k] <= size then seg.Marker? && seg.lead == lead && seg.nums != []
      else seg == Gap(lead.breaksLine && LineGoesOn(answer, i + 1))
    case _ => seg == answer[i]
  }

  ghost predicate KeepsPlaces(answer: seq<Seg>, out: seq<Seg>, size: nat) {
    |out| == |answer| && forall i :: 0 <= i < |answer| ==> SegKept(answer, i, out[i], size)
  }

  lemma {:induction false} RewritingKeepsPlaces(answer: seq<Seg>, m: map<nat, nat>, out: seq<Seg>, size: nat)
    requires Rewritten(answer, m, out) && forall k :: k in Cited(answer) ==> (k in m <==> 1 <= k <= size)
    ensures KeepsPlaces(answer, out, size)
  {
    forall i | 0 <= i < |answer| ensures SegKept(answer, i, out[i], size) {
      assert out[i] == RewriteSeg(answer, m, i);
      if answer[i].Marker? {
        var nums := answer[i].nums;
        forall k | 0 <= k < |nums| ensures nums[k] in m <==> 1 <= nums[k] <= size {
          assert nums[k] in Cited(answer);
        }
        EndsLineMeans(answer, i + 1);
        NothingLeft(nums, m);
        hide Cited, Renumbered, EndsLine, LineGoesOn;
      }
    }
  }

  lemma {:induction false} NothingLeft(nums: seq<nat>, m: map<nat, nat>)
    ensures Renumbered(nums, m, |nums|) != [] <==> exists k :: 0 <= k < |nums| && nums[k] in m
  {
    var left := Renumbered(nums, m, |nums|);
    if left != [] {
      RenumberedHas(nums, m, |nums|, left[0]);
      assert left[0] in left;
    }
    if k :| 0 <= k < |nums| && nums[k] in m {
      RenumberedHas(nums, m, |nums|, m[nums[k]]);
    }
  }

  // ------------------------------------------------------------ compaction

  /** How many of the numbers 1..k are cited: the dense number of `k` when it is one of them. */
  ghost function Rank(cited: set<nat>, k: nat): nat {
    if k == 0 then 0 else Rank(cited, k - 1) + (if k in cited then 1 else 0)
  }

  /** The cited papers among the first `k` of the panel, in panel order, under their old numbers. */
  ghost function Extracted(cited: set<nat>, panel: seq<Meta>, k: nat): (r: seq<Citation>)
    requires k <= |panel|
    ensures |r| == Rank(cited, k)
  {
    if k == 0 then []
    else if k in cited then Extracted(cited, panel, k - 1) + [Citation(k, panel[k - 1].raw)]
    else Extracted(cited, panel, k - 1)
  }

  ghost function CitedPapers(cited: set<nat>, panel: seq<Meta>, k: nat): (r: seq<Meta>)
    requires k <= |panel|
    ensures |r| == Rank(cited, k)
  {
    if k == 0 then []
    else if k in cited then CitedPapers(cited, panel, k - 1) + [panel[k - 1]]
    else CitedPapers(cited, panel, k - 1)
  }

  /** The old-to-new dictionary: every resolvable cited number to its dense number. */
  ghost function DenseMap(cited: set<nat>, size: nat): map<nat, nat> {
    map k | k in cited && 1 <= k <= size :: Rank(cited, k)
  }

  ghost function Raws(panel: seq<Meta>): seq<Raw> {
    seq(|panel|, i requires 0 <= i < |panel| => panel[i].raw)
  }

  lemma {:induction false} RankMonotone(cited: set<nat>, j: nat, k: nat)
    requires j <= k
    ensures Rank(cited, j) <= Rank(cited, k) <= Rank(cited, j) + (k - j)
    ensures j < k && k in cited ==> Rank(cited, j) < Rank(cited, k)
  {
    if j == k {
    } else {
      RankMonotone(cited, j, k - 1);
    }
  }

  lemma {:induction false} ExtractedAt(cited: set<nat>, panel: seq<Meta>, n: nat, k: nat)
    requires 1 <= k <= n <= |panel| && k in cited
    ensures 1 <= Rank(cited, k) <= Rank(cited, n)
    ensures Extracted(cited, panel, n)[Rank(cited, k) - 1] == Citation(k, panel[k - 1].raw)
    ensures CitedPapers(cited, panel, n)[Rank(cited, k) - 1] == panel[k - 1]
  {
    RankMonotone(cited, 0, k);
    RankMonotone(cited, k, n);
    if k < n {
      RankMonotone(cited, k, n - 1);
      ExtractedAt(cited, panel, n - 1, k);
    }
  }

  /** The dense number of `k` counts the cited numbers up to it. */
  lemma {:induction false} RankCounts(cited: set<nat>, k: nat)
    ensures Rank(cited, k) == |set x: nat | x in cited && 1 <= x <= k|
  {
    var upTo := set x: nat | x in cited && 1 <= x <= k;
    if k == 0 {
      assert upTo == {};
    } else {
      RankCounts(cited, k - 1);
      var before := set x: nat | x in cited && 1 <= x <= k - 1;
      assert upTo == before + if k in cited then {k} else {};
    }
  }

  /** The panel is that of all chunks or of those shown. */
  lemma {:induction false} VisibleMeans(metas: seq<Meta>, visible: Option<int>)
    ensures VisiblePanel(metas, visible) ==
            Panel(metas, if visible.None? || visible.value > |metas| then |metas|
                         else if visible.value >= 0 then visible.value
                         else Monus(|metas|, -visible.value))
  {
    if visible.Some? {
      var shown := Take(metas, visible.value);
      PanelOfPrefix(metas, |shown|, |shown|);
      assert shown == metas[..|shown|];
    }
  }

  /** Every dense number is the rank of a cited paper. */
  lemma {:induction false} RankIsOnto(cited: set<nat>, n: nat, r: nat) returns (k: nat)
    requires 1 <= r <= Rank(cited, n)
    ensures 1 <= k <= n && k in cited && Rank(cited, k) == r
  {
    if r <= Rank(cited, n - 1) {
      k := RankIsOnto(cited, n - 1, r);
    } else {
      k := n;
    }
  }

  lemma {:induction false} NothingCitedBetween(cited: set<nat>, panel: seq<Meta>, j: nat, k: nat)
    requires j <= k <= |panel| && forall x :: j < x <= k ==> x !in cited
    ensures Extracted(cited, panel, k) == Extracted(cited, panel, j)
  {
    if j == k {
    } else {
      NothingCitedBetween(cited, panel, j, k - 1);
    }
  }

  method CitedNumbers(answer: seq<Seg>) returns (seen: set<nat>)
    ensures seen == Cited(answer)
  {
    seen := {};
    for i := 0 to |answer|
      invariant forall x :: x in seen <==>
        exists j, k :: 0 <= j < i && answer[j].Marker? && 0 <= k < |answer[j].nums| && answer[j].nums[k] == x
    {
      if answer[i].Marker? {
        seen := seen + set k | 0 <= k < |answer[i].nums| :: answer[i].nums[k];
      }
    }
  }

  method Smallest(s: set<nat>) returns (least: nat)
    requires s != {}
    ensures least in s && forall x :: x in s ==> least <= x
  {
    least :| least in s;
    var todo := s - {least};
    while todo != {}
      invariant todo <= s && least in s && forall x :: x in s && x !in todo ==> least <= x
    {
      var x :| x in todo;
      least := if x < least then x else least;
      todo := todo - {x};
    }
  }

  /** `extract_citations`: the cited papers of the visible chunks, by ascending number. */
  method ExtractCitations(answer: seq<Seg>, metas: seq<Meta>, visible: Option<int>) returns (citations: seq<Citation>)
    ensures var panel := VisiblePanel(metas, visible);
            citations == Extracted(Cited(answer), panel, |panel|)
  {
    var shown := if visible.Some? then Take(metas, visible.value) else metas;
    ghost var panel := VisiblePanel(metas, visible);
    var seen := CitedNumbers(answer);
    var numToMeta := CitationNumberMap(shown);
    citations := [];
    var todo := seen;
    ghost var b: nat := 0;
    while todo != {}
      invariant todo <= seen && b <= |panel|
      invariant forall x :: x in seen && x !in todo && x <= |panel| ==> x <= b
      invariant forall x :: x in todo ==> x == 0 || x > b
      invariant forall x, y :: x in todo && y in seen && y !in todo ==> y < x
      invariant citations == Extracted(seen, panel, b)
    {
      var num := Smallest(todo);
      if num in numToMeta {
        NothingCitedBetween(seen, panel, b, num - 1);
        citations := citations + [Citation(num, numToMeta[num].raw)];
        b := num;
      }
      todo := todo - {num};
    }
    NothingCitedBetween(seen, panel, b, |panel|);
  }

  ghost function VisiblePanel(metas: seq<Meta>, visible: Option<int>): seq<Meta> {
    var shown := if visible.Some? then Take(metas, visible.value) else metas;
    Panel(shown, |shown|)
  }

  /** `compact_citations`: drop dangling numbers, close the gaps in the others. */
  method CompactCitations(answer: seq<Seg>, metas: seq<Meta>, visible: Option<int>)
    returns (out: seq<Seg>, citations: seq<Citation>)
    ensures var panel := VisiblePanel(metas, visible);
            && Rewritten(answer, DenseMap(Cited(answer), |panel|), out)
            && KeepsPlaces(answer, out, |panel|)
            && |citations| == Rank(Cited(answer), |panel|)
            && forall i :: 0 <= i < |citations| ==>
                 citations[i] == Citation(i + 1, CitedPapers(Cited(answer), panel, |panel|)[i].raw)
  {
    ghost var panel := VisiblePanel(metas, visible);
    ghost var cited := Cited(answer);
    citations := ExtractCitations(answer, metas, visible);
    var renumber: map<nat, nat> := map[];
    var dense: seq<Citation> := [];
    for i := 0 to |citations|
      invariant |dense| == i
      invariant forall k: nat :: k in renumber <==> k in cited && 1 <= k <= |panel| && Rank(cited, k) <= i
      invariant forall k: nat :: k in renumber ==> renumber[k] == Rank(cited, k)
      invariant forall j :: 0 <= j < i ==> dense[j] == Citation(j + 1, CitedPapers(cited, panel, |panel|)[j].raw)
    {
      ghost var k := RankIsOnto(cited, |panel|, i + 1);
      ExtractedAt(cited, panel, |panel|, k);
      forall x: nat | x in cited && 1 <= x <= |panel| && Rank(cited, x) == i + 1 ensures x == k {
        ExtractedAt(cited, panel, |panel|, x);
      }
      renumber := renumber[citations[i].number := i + 1];
      dense := dense + [Citation(i + 1, citations[i].raw)];
    }
    forall k: nat | k in cited && 1 <= k <= |panel| ensures Rank(cited, k) <= |citations| {
      ExtractedAt(cited, panel, |panel|, k);
    }
    assert renumber == DenseMap(cited, |panel|);
    out := RewriteMarkers(answer, renumber);
    RewritingKeepsPlaces(answer, renumber, out, |panel|);
    citations := dense;
  }

  /** Compaction keeps what every marker means: each new number names the paper its old number named. */
  lemma {:induction false} CompactionKeepsMeaning(answer: seq<Seg>, panel: seq<Meta>, out: seq<Seg>)
    requires Rewritten(answer, DenseMap(Cited(answer), |panel|), out)
    ensures Meaning(out, Raws(CitedPapers(Cited(answer), panel, |panel|)), |out|)
            == Meaning(answer, Raws(panel), |answer|)
  {
    var cited := Cited(answer);
    DenseMapTranslates(cited, panel);
    RenumberingKeepsMeaning(answer, DenseMap(cited, |panel|), out, Raws(panel),
                            Raws(CitedPapers(cited, panel, |panel|)), |answer|);
  }

  lemma {:induction false} DenseMapTranslates(cited: set<nat>, panel: seq<Meta>)
    ensures Translates(DenseMap(cited, |panel|), cited, Raws(panel), Raws(CitedPapers(cited, panel, |panel|)))
  {
    var m, papers := DenseMap(cited, |panel|), CitedPapers(cited, panel, |panel|);
    forall k | k in cited && 1 <= k <= |panel|
      ensures 1 <= m[k] <= |papers| && papers[m[k] - 1] == panel[k - 1]
    {
      ExtractedAt(cited, panel, |panel|, k);
    }
  }

  /** The compacted answer uses exactly the numbers of its panel, 1 to M. */
  lemma {:induction false} CompactionIsDense(answer: seq<Seg>, size: nat, out: seq<Seg>, x: nat)
    requires Rewritten(answer, DenseMap(Cited(answer), size), out)
    ensures x in Cited(out) <==> 1 <= x <= Rank(Cited(answer), size)
  {
    var cited := Cited(answer);
    var m := DenseMap(cited, size);
    CitedAfterRewrite(answer, m, out, x);
    if 1 <= x <= Rank(cited, size) {
      var k := RankIsOnto(cited, size, x);
      assert k in cited && k in m && m[k] == x;
    }
    if x in Cited(out) {
      var k :| k in cited && k in m && m[k] == x;
      RankMonotone(cited, k, size);
      RankMonotone(cited, 0, k);
    }
  }

  /** Compacting again, against the panel that was returned, changes nothing. */
  lemma {:induction false} CompactionIsIdempotent(answer: seq<Seg>, metas: seq<Meta>, visible: Option<int>,
                                                  out: seq<Seg>, out2: seq<Seg>)
    requires var panel := VisiblePanel(metas, visible);
             Rewritten(answer, DenseMap(Cited(answer), |panel|), out)
    requires var panel := VisiblePanel(metas, visible);
             var again := VisiblePanel(CitedPapers(Cited(answer), panel, |panel|), None);
             Rewritten(out, DenseMap(Cited(out), |again|), out2)
    ensures out2 == out
    ensures var panel := VisiblePanel(metas, visible);
            var papers := CitedPapers(Cited(answer), panel, |panel|);
            var again := VisiblePanel(papers, None);
            CitedPapers(Cited(out), again, |again|) == papers
  {
    var panel := VisiblePanel(metas, visible);
    var papers := CitedPapers(Cited(answer), panel, |panel|);
    var shown := if visible.Some? then Take(metas, visible.value) else metas;
    PanelIsDistinct(shown, |shown|);
    CitedPapersAreDistinct(Cited(answer), panel, |panel|);
    PanelOfDistinct(papers, |papers|);
    assert papers[..|papers|] == papers;
    var m2 := DenseMap(Cited(out), |papers|);
    forall x: nat ensures x in Cited(out) <==> 1 <= x <= |papers| {
      CompactionIsDense(answer, |panel|, out, x);
    }
    forall x: nat | x <= |papers| ensures Rank(Cited(out), x) == x {
      FullRank(Cited(out), |papers|, x);
    }
    forall i | 0 <= i < |out| ensures out2[i] == out[i] {
      FixedMarker(answer, DenseMap(Cited(answer), |panel|), out, m2, i);
    }
    AllCited(Cited(out), papers, |papers|);
  }

  lemma {:induction false} FixedMarker(answer: seq<Seg>, m: map<nat, nat>, out: seq<Seg>, m2: map<nat, nat>, i: nat)
    requires Rewritten(answer, m, out) && i < |out|
    requires forall k: nat :: k in Cited(out) ==> k in m2 && m2[k] == k
    ensures RewriteSeg(out, m2, i) == out[i]
  {
    assert out[i] == RewriteSeg(answer, m, i);
    if out[i].Marker? {
      var before, nums := answer[i].nums, out[i].nums;
      forall k | k in nums ensures k in m2 && m2[k] == k {
        var j :| 0 <= j < |nums| && nums[j] == k;
        assert k in Cited(out);
      }
      RenumberedDistinct(before, m, |before|);
      IdentityRenumbering(nums, m2, |nums|);
      assert nums[..|nums|] == nums;
    }
  }

  lemma {:induction false} CitedPapersAreDistinct(cited: set<nat>, panel: seq<Meta>, k: nat)
    requires k <= |panel| && DistinctTitles(panel)
    ensures DistinctTitles(CitedPapers(cited, panel, k))
    ensures forall i, j :: 0 <= i < Rank(cited, k) && k <= j < |panel| ==>
              CitedPapers(cited, panel, k)[i].title != panel[j].title
  {
    if k == 0 {
    } else {
      CitedPapersAreDistinct(cited, panel, k - 1);
    }
  }

  lemma {:induction false} PanelOfDistinct(metas: seq<Meta>, n: nat)
    requires n <= |metas| && DistinctTitles(metas)
    ensures Panel(metas, n) == metas[..n]
  {
    if n == 0 {
    } else {
      PanelOfDistinct(metas, n - 1);
      SearchMeans(metas[..n - 1], n - 1, metas[n - 1].title);
      assert metas[..n] == metas[..n - 1] + [metas[n - 1]];
    }
  }

  lemma {:induction false} AllCited(cited: set<nat>, panel: seq<Meta>, k: nat)
    requires k <= |panel| && forall y: nat :: 1 <= y <= k ==> y in cited
    ensures CitedPapers(cited, panel, k) == panel[..k]
  {
    if k == 0 {
    } else {
      AllCited(cited, panel, k - 1);
    }
  }

  lemma {:induction false} FullRank(cited: set<nat>, top: nat, x: nat)
    requires x <= top && forall y :: 1 <= y <= top ==> y in cited
    ensures Rank(cited, x) == x
  {
    if x == 0 {
    } else {
      FullRank(cited, top, x - 1);
    }
  }

  lemma {:induction false} RenumberedDistinct(nums: seq<nat>, m: map<nat, nat>, n: nat)
    requires n <= |nums|
    ensures NoRepeats(Renumbered(nums, m, n))
  {
    if n == 0 {
    } else {
      RenumberedDistinct(nums, m, n - 1);
      var before := Renumbered(nums, m, n - 1);
      forall i | 0 <= i < |before| ensures before[i] in before {
      }
    }
  }

  ghost predicate NoRepeats(nums: seq<nat>) {
    forall i, j :: 0 <= i < j < |nums| ==> nums[i] != nums[j]
  }

  lemma {:induction false} IdentityRenumbering(nums: seq<nat>, m: map<nat, nat>, n: nat)
    requires n <= |nums|
    requires NoRepeats(nums)
    requires forall k :: k in nums ==> k in m && m[k] == k
    ensures Renumbered(nums, m, n) == nums[..n]
  {
    if n == 0 {
    } else {
      IdentityRenumbering(nums, m, n - 1);
      assert nums[..n] == nums[..n - 1] + [nums[n - 1]];
    }
  }
}
