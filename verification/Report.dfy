/**
 A literature review: every section is answered and compacted on its own, then its markers
 are moved to document-wide numbers through one registry of titles (report_runner.py).
 */
module Report {
  import opened Common
  import opened Numbering
  import opened Citations

  ghost predicate Unrepeated(titles: seq<Raw>) {
    forall i, j :: 0 <= i < j < |titles| ==> titles[i] != titles[j]
  }

  /** Titles in the order of first sighting, after the first `n` citations of a section. */
  ghost function Register(titles: seq<Raw>, cites: seq<Citation>, n: nat): seq<Raw>
    requires n <= |cites|
  {
    if n == 0 then titles
    else
      var before := Register(titles, cites, n - 1);
      if cites[n - 1].raw in before then before else before + [cites[n - 1].raw]
  }

  /** The section's numbers sent to the registry's; a number listed twice takes the later title. */
  ghost function LocalToGlobal(cites: seq<Citation>, numbers: map<Raw, nat>, n: nat): map<nat, nat>
    requires n <= |cites| && forall i :: 0 <= i < n ==> cites[i].raw in numbers
  {
    if n == 0 then map[]
    else LocalToGlobal(cites, numbers, n - 1)[cites[n - 1].number := numbers[cites[n - 1].raw]]
  }

  /** The title at position n - 1 has number n, and there are no others. */
  ghost predicate Registered(numbers: map<Raw, nat>, titles: seq<Raw>) {
    && |numbers| == |titles|
    && (forall t :: t in numbers <==> t in titles)
    && (forall i :: 0 <= i < |titles| ==> titles[i] in numbers && numbers[titles[i]] == i + 1)
  }

  lemma {:induction false} RegisterOne(numbers: map<Raw, nat>, titles: seq<Raw>, t: Raw)
    requires Registered(numbers, titles) && t !in numbers
    ensures Registered(numbers[t := |numbers| + 1], titles + [t])
  {
    var more := titles + [t];
    assert forall i :: 0 <= i < |titles| ==> more[i] == titles[i] && titles[i] in titles;
  }

  class Registry {
    var numbers: map<Raw, nat>
    ghost var titles: seq<Raw>

    ghost predicate Valid()
      reads this
    {
      Registered(numbers, titles)
    }

    constructor ()
      ensures Valid() && titles == []
    {
      numbers, titles := map[], [];
    }

    /** `_remap_markers`: register the section's titles, then rewrite its markers. */
    method RemapMarkers(body: seq<Seg>, cites: seq<Citation>) returns (out: seq<Seg>)
      requires Valid()
      modifies this
      ensures Valid() && titles == Register(old(titles), cites, |cites|)
      ensures forall i :: 0 <= i < |cites| ==> cites[i].raw in numbers
      ensures Rewritten(body, LocalToGlobal(cites, numbers, |cites|), out)
    {
      hide Rewritten, Registered;
      var localToGlobal: map<nat, nat> := map[];
      assert localToGlobal == LocalToGlobal(cites, numbers, 0);
      hide LocalToGlobal;
      for k := 0 to |cites|
        invariant Valid() && titles == Register(old(titles), cites, k)
        invariant forall i :: 0 <= i < k ==> cites[i].raw in numbers
        invariant localToGlobal == LocalToGlobal(cites, numbers, k)
      {
        ghost var before := numbers;
        NumberTitle(cites[k].raw);
        NextLocal(cites, before, numbers, k);
        localToGlobal := localToGlobal[cites[k].number := numbers[cites[k].raw]];
      }
      out := RewriteMarkers(body, localToGlobal);
    }

    /** A title gets the next number on first sighting. */
    method NumberTitle(title: Raw)
      requires Valid()
      modifies this
      ensures Valid()
      ensures titles == if title in old(titles) then old(titles) else old(titles) + [title]
      ensures title in numbers && forall t :: t in old(numbers) ==> t in numbers && numbers[t] == old(numbers)[t]
    {
      if title !in numbers {
        RegisterOne(numbers, titles, title);
        numbers := numbers[title := |numbers| + 1];
        titles := titles + [title];
      }
    }

    /** `_render_global_refs`: the titles in the order of their numbers. */
    method References() returns (refs: seq<Raw>)
      requires Valid()
      ensures refs == titles
    {
      refs := [];
      for n := 0 to |numbers|
        invariant refs == titles[..n]
      {
        assert titles[n] in numbers && numbers[titles[n]] == n + 1;
        var t :| t in numbers && numbers[t] == n + 1;
        refs := refs + [t];
      }
    }
  }

  lemma {:induction false} AddingKeepsLocal(cites: seq<Citation>, numbers: map<Raw, nat>, more: map<Raw, nat>, n: nat)
    requires n <= |cites| && forall i :: 0 <= i < n ==> cites[i].raw in numbers
    requires forall t :: t in numbers ==> t in more && more[t] == numbers[t]
    ensures LocalToGlobal(cites, more, n) == LocalToGlobal(cites, numbers, n)
  {
    if n == 0 {
    } else {
      AddingKeepsLocal(cites, numbers, more, n - 1);
    }
  }

  lemma {:induction false} NextLocal(cites: seq<Citation>, numbers: map<Raw, nat>, more: map<Raw, nat>, n: nat)
    requires n < |cites| && (forall i :: 0 <= i < n ==> cites[i].raw in numbers) && cites[n].raw in more
    requires forall t :: t in numbers ==> t in more && more[t] == numbers[t]
    ensures LocalToGlobal(cites, more, n + 1) == LocalToGlobal(cites, numbers, n)[cites[n].number := more[cites[n].raw]]
  {
    AddingKeepsLocal(cites, numbers, more, n);
  }

  /** A registry only grows, and never repeats a title. */
  lemma {:induction false} RegisterGrows(titles: seq<Raw>, cites: seq<Citation>, n: nat)
    requires n <= |cites| && Unrepeated(titles)
    ensures titles <= Register(titles, cites, n) && Unrepeated(Register(titles, cites, n))
    ensures forall t :: t in Register(titles, cites, n) ==>
                          t in titles || exists i :: 0 <= i < n && cites[i].raw == t
  {
    if n == 0 {
    } else {
      RegisterGrows(titles, cites, n - 1);
      var before := Register(titles, cites, n - 1);
      forall i | 0 <= i < |before| ensures before[i] in before {
      }
    }
  }

  ghost predicate CitesRaw(cites: seq<Citation>, n: nat, t: Raw)
    requires n <= |cites|
  {
    exists i :: 0 <= i < n && cites[i].raw == t
  }

  /** What a registry holds: what it held, and the titles cited. */
  lemma {:induction false} RegisterHolds(titles: seq<Raw>, cites: seq<Citation>, n: nat, t: Raw)
    requires n <= |cites|
    ensures t in Register(titles, cites, n) <==> t in titles || CitesRaw(cites, n, t)
  {
    if n == 0 {
    } else {
      RegisterHolds(titles, cites, n - 1, t);
    }
  }

  lemma {:induction false} NewlyCited(titles: seq<Raw>, cites: seq<Citation>, at: nat) returns (i: nat)
    requires Unrepeated(titles) && |titles| <= at < |Register(titles, cites, |cites|)|
    ensures i < |cites| && cites[i].raw == Register(titles, cites, |cites|)[at]
  {
    var all := Register(titles, cites, |cites|);
    RegisterGrows(titles, cites, |cites|);
    forall j | 0 <= j < |titles| ensures titles[j] != all[at] {
      assert titles[j] == all[j];
    }
    assert all[at] in all && all[at] !in titles;
    i :| 0 <= i < |cites| && cites[i].raw == all[at];
  }

  /** Place `i` of the sightings is the first of its title. */
  ghost function FirstOf(sightings: seq<Raw>): nat -> bool {
    (i: nat) => i < |sightings| && forall k :: 0 <= k < i ==> sightings[k] != sightings[i]
  }

  ghost function TitleAt(sightings: seq<Raw>): (nat, Raw) -> bool {
    (i: nat, t: Raw) => i < |sightings| && t == sightings[i]
  }

  /** The titles sighted, each once, in the order of their first sighting. */
  ghost predicate ByFirstSight(titles: seq<Raw>, sightings: seq<Raw>) {
    && Selects(titles, FirstOf(sightings), |sightings|, TitleAt(sightings))
    && forall t :: t in titles <==> t in sightings
  }

  lemma {:induction false} SightedAgain(titles: seq<Raw>, sightings: seq<Raw>, t: Raw)
    requires ByFirstSight(titles, sightings)
    ensures ByFirstSight(if t in titles then titles else titles + [t], sightings + [t])
  {
    hide *;
    var n, more, titles' := |sightings|, sightings + [t], if t in titles then titles else titles + [t];
    Unfold(titles, sightings);
    StillListed(titles, sightings, t);
    NewSight(sightings, t);
    SelectsNext(titles, FirstOf(more), n, TitleAt(more), titles');
    Fold(titles', more);
  }

  lemma {:induction false} Unfold(titles: seq<Raw>, sightings: seq<Raw>)
    requires ByFirstSight(titles, sightings)
    ensures Selects(titles, FirstOf(sightings), |sightings|, TitleAt(sightings))
    ensures forall t :: t in titles <==> t in sightings
  {
  }

  lemma {:induction false} Fold(titles: seq<Raw>, sightings: seq<Raw>)
    requires Selects(titles, FirstOf(sightings), |sightings|, TitleAt(sightings))
    requires forall t :: t in titles <==> t in sightings
    ensures ByFirstSight(titles, sightings)
  {
  }

  lemma {:induction false} StillListed(titles: seq<Raw>, sightings: seq<Raw>, t: Raw)
    requires Selects(titles, FirstOf(sightings), |sightings|, TitleAt(sightings))
    ensures Selects(titles, FirstOf(sightings + [t]), |sightings|, TitleAt(sightings + [t]))
  {
    var n, more := |sightings|, sightings + [t];
    CountEarlier(sightings, t, n);
    forall i | 0 <= i < n && FirstOf(more)(i)
      ensures Count(FirstOf(more), i) < |titles| && TitleAt(more)(i, titles[Count(FirstOf(more), i)])
    {
      CountEarlier(sightings, t, i);
      StillFirst(sightings, t, i);
      assert TitleAt(sightings)(i, titles[Count(FirstOf(sightings), i)]);
      hide FirstOf;
    }
  }

  lemma {:induction false} NewSight(sightings: seq<Raw>, t: Raw)
    ensures FirstOf(sightings + [t])(|sightings|) <==> t !in sightings
    ensures TitleAt(sightings + [t])(|sightings|, t)
    ensures forall u :: u in sightings + [t] <==> u in sightings || u == t
  {
    var more := sightings + [t];
    assert forall k :: 0 <= k < |sightings| ==> more[k] == sightings[k];
    if k :| 0 <= k < |sightings| && sightings[k] == t {
      assert more[k] == t;
    }
  }

  lemma {:induction false} StillFirst(sightings: seq<Raw>, t: Raw, i: nat)
    requires i < |sightings|
    ensures FirstOf(sightings + [t])(i) <==> FirstOf(sightings)(i)
  {
    var more := sightings + [t];
    assert forall k :: 0 <= k < |sightings| ==> more[k] == sightings[k];
    if !FirstOf(more)(i) {
      var k :| 0 <= k < i && more[k] == more[i];
      assert sightings[k] == sightings[i];
    }
  }

  lemma {:induction false} CountEarlier(sightings: seq<Raw>, t: Raw, n: nat)
    requires n <= |sightings|
    ensures Count(FirstOf(sightings + [t]), n) == Count(FirstOf(sightings), n)
  {
    if n == 0 {
    } else {
      CountEarlier(sightings, t, n - 1);
      StillFirst(sightings, t, n - 1);
      hide FirstOf;
    }
  }

  /** Registering keeps the order of first sighting. */
  lemma {:induction false} RegisterByFirstSight(titles: seq<Raw>, cites: seq<Citation>, n: nat, sightings: seq<Raw>)
    requires n <= |cites| && ByFirstSight(titles, sightings)
    ensures ByFirstSight(Register(titles, cites, n), sightings + CitedRaws(cites)[..n])
  {
    hide ByFirstSight;
    var raws := CitedRaws(cites);
    if n == 0 {
      assert sightings + raws[..0] == sightings;
    } else {
      RegisterByFirstSight(titles, cites, n - 1, sightings);
      SightedAgain(Register(titles, cites, n - 1), sightings + raws[..n - 1], cites[n - 1].raw);
      assert sightings + raws[..n - 1] + [cites[n - 1].raw] == sightings + raws[..n];
    }
  }

  /** Citations as compaction returns them: numbered 1, 2, 3, ... */
  ghost predicate Consecutive(cites: seq<Citation>) {
    forall i :: 0 <= i < |cites| ==> cites[i].number == i + 1
  }

  ghost function CitedRaws(cites: seq<Citation>): seq<Raw> {
    seq(|cites|, i requires 0 <= i < |cites| => cites[i].raw)
  }

  ghost predicate AgreesWith(numbers: map<Raw, nat>, titles: seq<Raw>) {
    forall t :: t in numbers ==> 1 <= numbers[t] <= |titles| && titles[numbers[t] - 1] == t
  }

  lemma {:induction false} RegisteredAgrees(numbers: map<Raw, nat>, titles: seq<Raw>)
    requires Registered(numbers, titles)
    ensures AgreesWith(numbers, titles)
  {
    forall t | t in numbers ensures 1 <= numbers[t] <= |titles| && titles[numbers[t] - 1] == t {
      var i :| 0 <= i < |titles| && titles[i] == t;
    }
  }

  lemma {:induction false} LocalToGlobalAt(cites: seq<Citation>, numbers: map<Raw, nat>, n: nat)
    requires n <= |cites| && Consecutive(cites) && forall i :: 0 <= i < |cites| ==> cites[i].raw in numbers
    ensures forall k: nat :: k in LocalToGlobal(cites, numbers, n) <==> 1 <= k <= n
    ensures forall k: nat :: 1 <= k <= n ==> LocalToGlobal(cites, numbers, n)[k] == numbers[cites[k - 1].raw]
  {
    if n == 0 {
    } else {
      LocalToGlobalAt(cites, numbers, n - 1);
    }
  }

  /** Moving a section to document-wide numbers keeps what every marker means. */
  lemma {:induction false} RemapKeepsMeaning(body: seq<Seg>, cites: seq<Citation>, numbers: map<Raw, nat>,
                                             titles: seq<Raw>, out: seq<Seg>)
    requires Consecutive(cites) && AgreesWith(numbers, titles)
    requires forall i :: 0 <= i < |cites| ==> cites[i].raw in numbers
    requires Rewritten(body, LocalToGlobal(cites, numbers, |cites|), out)
    ensures Meaning(out, titles, |out|) == Meaning(body, CitedRaws(cites), |body|)
  {
    LocalToGlobalAt(cites, numbers, |cites|);
    RenumberingKeepsMeaning(body, LocalToGlobal(cites, numbers, |cites|), out, CitedRaws(cites), titles, |body|);
  }

  lemma {:induction false} NamedStable(nums: seq<nat>, panel: seq<Raw>, more: seq<Raw>, n: nat)
    requires n <= |nums| && panel <= more && forall k :: k in nums ==> k <= |panel|
    ensures Named(nums, more, n) == Named(nums, panel, n)
  {
    if n == 0 {
    } else {
      NamedStable(nums, panel, more, n - 1);
      assert nums[n - 1] in nums;
    }
  }

  /** Numbers are stable once assigned: later sections do not change what an earlier one says. */
  lemma {:induction false} LaterSectionsDoNotDisturb(body: seq<Seg>, panel: seq<Raw>, more: seq<Raw>, n: nat)
    requires n <= |body| && panel <= more && forall k :: k in Cited(body) ==> k <= |panel|
    ensures Meaning(body, more, n) == Meaning(body, panel, n)
  {
    if n == 0 {
    } else {
      LaterSectionsDoNotDisturb(body, panel, more, n - 1);
      if body[n - 1].Marker? {
        var nums := body[n - 1].nums;
        forall k | k in nums ensures k in Cited(body) {
          var j :| 0 <= j < |nums| && nums[j] == k;
        }
        NamedStable(nums, panel, more, |nums|);
      }
    }
  }

  /** One section as the pipeline leaves it, or the note that it failed. */
  datatype Draft = Answered(answer: seq<Seg>, metas: seq<Meta>, visible: Option<int>) | Failed(note: Words)

  /** A section says what its draft says: text and markers in their places, each marker naming the same titles. */
  ghost predicate Says(d: Draft, body: seq<Seg>, refs: seq<Raw>) {
    if d.Answered? then
      var panel := VisiblePanel(d.metas, d.visible);
      && KeepsPlaces(d.answer, body, |panel|)
      && Meaning(body, refs, |body|) == Meaning(d.answer, Raws(panel), |d.answer|)
    else
      body == [Text(d.note, false, false)]
  }

  /** So a section reads as its draft does: same texts, and a marker wherever one resolved. */
  lemma {:induction false} ReadsAsDrafted(d: Draft, body: seq<Seg>, refs: seq<Raw>)
    requires Says(d, body, refs)
    ensures d.Failed? ==> body == [Text(d.note, false, false)]
    ensures d.Answered? ==> |body| == |d.answer| && forall i :: 0 <= i < |body| ==>
              match d.answer[i]
              case Marker(lead, nums) =>
                if exists k :: 0 <= k < |nums| && 1 <= nums[k] <= |VisiblePanel(d.metas, d.visible)|
                then body[i].Marker? && body[i].lead == lead && body[i].nums != []
                else body[i] == Gap(lead.breaksLine && LineGoesOn(d.answer, i + 1))
              case seg => body[i] == seg
  {
    if d.Answered? {
      forall i | 0 <= i < |d.answer| ensures SegKept(d.answer, i, body[i], |VisiblePanel(d.metas, d.visible)|) {
      }
      hide LineGoesOn, VisiblePanel, Meaning;
    }
  }

  /** The draft cites a paper stored under this title. */
  ghost predicate CitedIn(d: Draft, t: Raw) {
    d.Answered? &&
    var panel := VisiblePanel(d.metas, d.visible);
    t in Raws(CitedPapers(Cited(d.answer), panel, |panel|))
  }

  /** The titles a draft cites, by their numbers in its own panel. */
  ghost function SightedIn(d: Draft): seq<Raw> {
    if d.Failed? then []
    else
      var panel := VisiblePanel(d.metas, d.visible);
      Raws(CitedPapers(Cited(d.answer), panel, |panel|))
  }

  ghost function Sightings(drafts: seq<Draft>, n: nat): seq<Raw>
    requires n <= |drafts|
  {
    if n == 0 then [] else Sightings(drafts, n - 1) + SightedIn(drafts[n - 1])
  }

  ghost predicate CitedBefore(drafts: seq<Draft>, n: nat, t: Raw)
    requires n <= |drafts|
  {
    exists i :: 0 <= i < n && CitedIn(drafts[i], t)
  }

  lemma {:induction false} OneMoreDraft(drafts: seq<Draft>, n: nat, t: Raw)
    requires n < |drafts|
    ensures CitedBefore(drafts, n + 1, t) <==> CitedBefore(drafts, n, t) || CitedIn(drafts[n], t)
  {
    hide CitedIn;
  }

  ghost predicate CitedSomewhere(x: nat, bodies: seq<seq<Seg>>) {
    exists i :: 0 <= i < |bodies| && x in Cited(bodies[i])
  }

  /** What the first sections and the titles registered so far have to do with each other. */
  ghost predicate Assembled(drafts: seq<Draft>, bodies: seq<seq<Seg>>, titles: seq<Raw>) {
    && Unrepeated(titles) && |bodies| <= |drafts|
    && (forall j :: 0 <= j < |bodies| ==> Says(drafts[j], bodies[j], titles))
    && (forall t :: t in titles <==> CitedBefore(drafts, |bodies|, t))
    && ByFirstSight(titles, Sightings(drafts, |bodies|))
    && (forall x: nat :: CitedSomewhere(x, bodies) <==> 1 <= x <= |titles|)
  }

  /** What one section adds. */
  ghost predicate Added(d: Draft, out: seq<Seg>, before: seq<Raw>, titles: seq<Raw>) {
    && Unrepeated(titles) && before <= titles && Says(d, out, titles)
    && (forall t :: t in titles <==> t in before || CitedIn(d, t))
    && (forall s :: ByFirstSight(before, s) ==> ByFirstSight(titles, s + SightedIn(d)))
    && (forall x: nat :: x in Cited(out) ==> 1 <= x <= |titles|)
    && (forall x: nat :: |before| < x <= |titles| ==> x in Cited(out))
  }

  /**
   `run_report`, from drafted answers to sections and References list: markers keep their meaning,
   a title is listed once if and only if a section cites it, a number is cited if and only if listed.
   */
  method RunReport(drafts: seq<Draft>) returns (bodies: seq<seq<Seg>>, refs: seq<Raw>)
    ensures |bodies| == |drafts|
    ensures forall i :: 0 <= i < |drafts| ==> Says(drafts[i], bodies[i], refs)
    ensures Unrepeated(refs) && forall t :: t in refs <==> CitedBefore(drafts, |drafts|, t)
    ensures ByFirstSight(refs, Sightings(drafts, |drafts|))
    ensures forall x: nat :: CitedSomewhere(x, bodies) <==> 1 <= x <= |refs|
  {
    var registry := new Registry();
    bodies := [];
    assert Assembled(drafts, bodies, registry.titles);
    hide Says, CitedSomewhere, CitedBefore, Unrepeated, Added, Registered, ByFirstSight, Sightings;
    for i := 0 to |drafts|
      invariant fresh(registry) && registry.Valid() && |bodies| == i && Assembled(drafts, bodies, registry.titles)
    {
      hide Assembled;
      ghost var before := registry.titles;
      assert Unrepeated(before) by {
        AssembledIsUnrepeated(drafts, bodies, before);
      }
      var out := AddSection(registry, drafts[i]);
      AssembleOne(drafts, bodies, before, registry.titles, out);
      bodies := bodies + [out];
    }
    refs := registry.References();
  }

  lemma {:induction false} AssembledIsUnrepeated(drafts: seq<Draft>, bodies: seq<seq<Seg>>, titles: seq<Raw>)
    requires Assembled(drafts, bodies, titles)
    ensures Unrepeated(titles)
  {
  }

  lemma {:induction false} AssembleOne(drafts: seq<Draft>, bodies: seq<seq<Seg>>, before: seq<Raw>, titles: seq<Raw>,
                                       out: seq<Seg>)
    requires Assembled(drafts, bodies, before) && |bodies| < |drafts|
    requires Added(drafts[|bodies|], out, before, titles)
    ensures Assembled(drafts, bodies + [out], titles)
  {
    hide Says, CitedSomewhere, CitedIn, CitedBefore, Cited, ByFirstSight, SightedIn;
    var i, more := |bodies|, bodies + [out];
    forall j | 0 <= j < |more| ensures Says(drafts[j], more[j], titles) {
      if j < i {
        EarlierSection(drafts, bodies, j, before, titles);
      }
    }
    forall t ensures t in titles <==> CitedBefore(drafts, i + 1, t) {
      OneMoreDraft(drafts, i, t);
    }
    OneMoreBody(bodies, out);
  }

  lemma {:induction false} EarlierSection(drafts: seq<Draft>, bodies: seq<seq<Seg>>, j: nat, before: seq<Raw>,
                                          titles: seq<Raw>)
    requires j < |bodies| <= |drafts| && Says(drafts[j], bodies[j], before) && before <= titles
    requires forall x: nat :: CitedSomewhere(x, bodies) <==> 1 <= x <= |before|
    ensures Says(drafts[j], bodies[j], titles)
  {
    forall k | k in Cited(bodies[j]) ensures k <= |before| {
      assert CitedSomewhere(k, bodies);
    }
    LaterSectionsDoNotDisturb(bodies[j], before, titles, |bodies[j]|);
  }

  /** One turn of the section loop. */
  method AddSection(registry: Registry, d: Draft) returns (out: seq<Seg>)
    requires registry.Valid() && Unrepeated(registry.titles)
    modifies registry
    ensures registry.Valid() && Added(d, out, old(registry.titles), registry.titles)
  {
    hide Says, Rewritten, Meaning, Registered, Register, LocalToGlobal, CompactedFrom, Cited, CitedIn, CitesRaw,
      ByFirstSight, SightedIn, CitedRaws;
    ghost var before := registry.titles;
    var body, cites := Compacted(d);
    out := registry.RemapMarkers(body, cites);
    RegisterGrows(before, cites, |cites|);
    RegisteredAgrees(registry.numbers, registry.titles);
    forall t ensures t in registry.titles <==> t in before || CitedIn(d, t) {
      RegisterHolds(before, cites, |cites|, t);
      SectionLists(d, body, cites, t);
    }
    forall s | ByFirstSight(before, s) ensures ByFirstSight(registry.titles, s + SightedIn(d)) {
      RegisterByFirstSight(before, cites, |cites|, s);
      SectionSights(d, body, cites);
    }
    SectionSays(d, body, cites, registry.numbers, registry.titles, out);
    forall x: nat
      ensures x in Cited(out) ==> 1 <= x <= |registry.titles|
      ensures |before| < x <= |registry.titles| ==> x in Cited(out)
    {
      SectionUsesItsTitles(d, body, cites, before, registry.numbers, registry.titles, out, x);
    }
  }

  method Compacted(d: Draft) returns (body: seq<Seg>, cites: seq<Citation>)
    ensures CompactedFrom(d, body, cites)
  {
    if d.Failed? {
      return [Text(d.note, false, false)], [];
    }
    body, cites := CompactCitations(d.answer, d.metas, d.visible);
  }

  lemma {:induction false} OneMoreBody(bodies: seq<seq<Seg>>, out: seq<Seg>)
    ensures forall x: nat :: CitedSomewhere(x, bodies + [out]) <==> CitedSomewhere(x, bodies) || x in Cited(out)
  {
    var more := bodies + [out];
    forall x: nat ensures CitedSomewhere(x, more) <==> CitedSomewhere(x, bodies) || x in Cited(out) {
      if CitedSomewhere(x, bodies) {
        var i :| 0 <= i < |bodies| && x in Cited(bodies[i]);
        assert more[i] == bodies[i];
      }
      assert more[|bodies|] == out;
    }
  }

  /** `body` and `cites` are what compaction made of the draft. */
  ghost predicate CompactedFrom(d: Draft, body: seq<Seg>, cites: seq<Citation>) {
    if d.Answered? then
      var panel := VisiblePanel(d.metas, d.visible);
      var papers := CitedPapers(Cited(d.answer), panel, |panel|);
      && Rewritten(d.answer, DenseMap(Cited(d.answer), |panel|), body)
      && |cites| == |papers|
      && forall i :: 0 <= i < |cites| ==> cites[i] == Citation(i + 1, papers[i].raw)
    else cites == [] && body == [Text(d.note, false, false)]
  }

  lemma {:induction false} SectionLists(d: Draft, body: seq<Seg>, cites: seq<Citation>, t: Raw)
    requires CompactedFrom(d, body, cites)
    ensures CitesRaw(cites, |cites|, t) <==> CitedIn(d, t)
  {
    if d.Answered? {
      var panel := VisiblePanel(d.metas, d.visible);
      var papers := CitedPapers(Cited(d.answer), panel, |panel|);
      hide CitedPapers, Cited, VisiblePanel;
      if t in Raws(papers) {
        var k :| 0 <= k < |papers| && Raws(papers)[k] == t;
        assert cites[k].raw == t;
      }
      if i :| 0 <= i < |cites| && cites[i].raw == t {
        assert Raws(papers)[i] == t;
      }
    }
  }

  lemma {:induction false} SectionSights(d: Draft, body: seq<Seg>, cites: seq<Citation>)
    requires CompactedFrom(d, body, cites)
    ensures CitedRaws(cites)[..|cites|] == SightedIn(d)
  {
  }

  lemma {:induction false} SectionSays(d: Draft, body: seq<Seg>, cites: seq<Citation>, numbers: map<Raw, nat>,
                                       titles: seq<Raw>,
                    out: seq<Seg>)
    requires CompactedFrom(d, body, cites) && AgreesWith(numbers, titles)
    requires forall i :: 0 <= i < |cites| ==> cites[i].raw in numbers
    requires Rewritten(body, LocalToGlobal(cites, numbers, |cites|), out)
    ensures Says(d, out, titles)
  {
    if d.Answered? {
      var panel := VisiblePanel(d.metas, d.visible);
      var papers := CitedPapers(Cited(d.answer), panel, |panel|);
      RemapKeepsMeaning(body, cites, numbers, titles, out);
      CompactionKeepsMeaning(d.answer, panel, body);
      assert CitedRaws(cites) == Raws(papers);
      SectionKeepsPlaces(d, body, cites, numbers, out);
    } else {
      assert out[0] == RewriteSeg(body, LocalToGlobal(cites, numbers, |cites|), 0);
    }
  }

  /** Both renumberings together: the second finds every marker of the compacted section resolvable. */
  lemma {:induction false} SectionKeepsPlaces(d: Draft, body: seq<Seg>, cites: seq<Citation>, numbers: map<Raw, nat>,
                                              out: seq<Seg>)
    requires d.Answered? && CompactedFrom(d, body, cites)
    requires forall i :: 0 <= i < |cites| ==> cites[i].raw in numbers
    requires Rewritten(body, LocalToGlobal(cites, numbers, |cites|), out)
    ensures KeepsPlaces(d.answer, out, |VisiblePanel(d.metas, d.visible)|)
  {
    var size, m := |VisiblePanel(d.metas, d.visible)|, LocalToGlobal(cites, numbers, |cites|);
    LocalToGlobalAt(cites, numbers, |cites|);
    RewritingKeepsPlaces(d.answer, DenseMap(Cited(d.answer), size), body, size);
    RewritingKeepsPlaces(body, m, out, |cites|);
    forall i | 0 <= i < |body| && body[i].Marker?
      ensures exists k :: 0 <= k < |body[i].nums| && 1 <= body[i].nums[k] <= |cites|
    {
      assert SegKept(d.answer, i, body[i], size);
      assert body[i].nums[0] in Cited(body);
      CompactionIsDense(d.answer, size, body, body[i].nums[0]);
    }
    forall i | 0 <= i < |body| ensures SegKept(d.answer, i, out[i], size) {
      assert SegKept(d.answer, i, body[i], size) && SegKept(body, i, out[i], |cites|);
      hide LineGoesOn, Cited;
    }
  }

  /** The numbers of the rewritten section are the registered numbers of its citations. */
  lemma {:induction false} SectionNumbers(d: Draft, body: seq<Seg>, cites: seq<Citation>, numbers: map<Raw, nat>,
                                          out: seq<Seg>, x: nat)
    requires CompactedFrom(d, body, cites)
    requires forall i :: 0 <= i < |cites| ==> cites[i].raw in numbers
    requires Rewritten(body, LocalToGlobal(cites, numbers, |cites|), out)
    ensures x in Cited(out) <==> exists i :: 0 <= i < |cites| && numbers[cites[i].raw] == x
  {
    var m := LocalToGlobal(cites, numbers, |cites|);
    LocalToGlobalAt(cites, numbers, |cites|);
    CitedAfterRewrite(body, m, out, x);
    if x in Cited(out) {
      var k: nat :| k in Cited(body) && k in m && m[k] == x;
      assert numbers[cites[k - 1].raw] == x;
    }
    if i :| 0 <= i < |cites| && numbers[cites[i].raw] == x {
      var panel := VisiblePanel(d.metas, d.visible);
      CompactionIsDense(d.answer, |panel|, body, i + 1);
      assert i + 1 in m && m[i + 1] == x;
    }
  }

  /** The new section uses known numbers only, and the number of every title it registers. */
  lemma {:induction false} SectionUsesItsTitles(d: Draft, body: seq<Seg>, cites: seq<Citation>, before: seq<Raw>,
                                                numbers: map<Raw, nat>, titles: seq<Raw>, out: seq<Seg>, x: nat)
    requires CompactedFrom(d, body, cites) && AgreesWith(numbers, titles)
    requires forall i :: 0 <= i < |cites| ==> cites[i].raw in numbers
    requires Rewritten(body, LocalToGlobal(cites, numbers, |cites|), out)
    requires Unrepeated(before) && titles == Register(before, cites, |cites|)
    ensures x in Cited(out) ==> 1 <= x <= |titles|
    ensures |before| < x <= |titles| ==> x in Cited(out)
  {
    hide CompactedFrom, Rewritten, LocalToGlobal, Cited, Register;
    SectionNumbers(d, body, cites, numbers, out, x);
    if |before| < x <= |titles| {
      var i := NewlyCited(before, cites, x - 1);
      RegisterGrows(before, cites, |cites|);
      assert numbers[cites[i].raw] == x;
    }
  }

  // ----- stored titles and normalised ones -----

  /** `norm` is how titles are normalised. */
  ghost predicate Normalises(norm: Raw -> Title, d: Draft) {
    d.Answered? ==> forall i :: 0 <= i < |d.metas| ==> d.metas[i].title == norm(d.metas[i].raw)
  }

  lemma {:induction false} PanelIsFrom(metas: seq<Meta>, n: nat)
    requires n <= |metas|
    ensures forall a :: 0 <= a < |Panel(metas, n)| ==> Panel(metas, n)[a] in metas
  {
    if n == 0 {
    } else {
      PanelIsFrom(metas, n - 1);
    }
  }

  lemma {:induction false} CitedPaperIsFrom(cited: set<nat>, panel: seq<Meta>, k: nat, r: nat) returns (a: nat)
    requires k <= |panel| && r < |CitedPapers(cited, panel, k)|
    ensures a < k && CitedPapers(cited, panel, k)[r] == panel[a]
  {
    if k in cited && r == |CitedPapers(cited, panel, k - 1)| {
      a := k - 1;
    } else {
      a := CitedPaperIsFrom(cited, panel, k - 1, r);
    }
  }

  /** Sections number by normalised title, so within one of them two stored titles do not clash. */
  lemma {:induction false} OneSectionDoesNotClash(norm: Raw -> Title, d: Draft, t: Raw, u: Raw)
    requires Normalises(norm, d) && CitedIn(d, t) && CitedIn(d, u) && norm(t) == norm(u)
    ensures t == u
  {
    var shown := if d.visible.Some? then Take(d.metas, d.visible.value) else d.metas;
    var cited, panel := Cited(d.answer), VisiblePanel(d.metas, d.visible);
    var papers := CitedPapers(cited, panel, |panel|);
    PanelIsDistinct(shown, |shown|);
    PanelIsFrom(shown, |shown|);
    var k :| 0 <= k < |papers| && Raws(papers)[k] == t;
    var l :| 0 <= l < |papers| && Raws(papers)[l] == u;
    var a := CitedPaperIsFrom(cited, panel, |panel|, k);
    var b := CitedPaperIsFrom(cited, panel, |panel|, l);
    hide CitedPapers, Panel;
    assert panel[a] in shown && panel[b] in shown;
    assert panel[a].raw == t && panel[b].raw == u;
    assert panel[a].title == norm(t) && panel[b].title == norm(u);
  }

  /** Two sections cite one normalised title under two stored ones. */
  ghost predicate Clash(norm: Raw -> Title, drafts: seq<Draft>, i: nat, j: nat, t: Raw, u: Raw) {
    && i < |drafts| && j < |drafts| && i != j && t != u && norm(t) == norm(u)
    && CitedIn(drafts[i], t) && CitedIn(drafts[j], u)
  }

  ghost predicate DistinctNorms(norm: Raw -> Title, refs: seq<Raw>) {
    forall a, b :: 0 <= a < b < |refs| ==> norm(refs[a]) != norm(refs[b])
  }

  /**
   The registry keys on stored titles while sections number by normalised ones.  The References
   list names each normalised title once exactly when no two sections cite it under different
   stored titles.
   */
  lemma {:induction false} ReferencesAreDistinctExactly(norm: Raw -> Title, drafts: seq<Draft>, refs: seq<Raw>)
    requires forall i :: 0 <= i < |drafts| ==> Normalises(norm, drafts[i])
    requires Unrepeated(refs) && forall t :: t in refs <==> CitedBefore(drafts, |drafts|, t)
    ensures DistinctNorms(norm, refs) <==> !exists i, j, t, u :: Clash(norm, drafts, i, j, t, u)
  {
    if i, j, t, u :| Clash(norm, drafts, i, j, t, u) {
      assert CitedBefore(drafts, |drafts|, t) && CitedBefore(drafts, |drafts|, u);
      var a :| 0 <= a < |refs| && refs[a] == t;
      var b :| 0 <= b < |refs| && refs[b] == u;
      assert a < b || b < a;
    }
    if !DistinctNorms(norm, refs) {
      var a, b :| 0 <= a < b < |refs| && norm(refs[a]) == norm(refs[b]);
      assert refs[a] in refs && refs[b] in refs;
      var i :| 0 <= i < |drafts| && CitedIn(drafts[i], refs[a]);
      var j :| 0 <= j < |drafts| && CitedIn(drafts[j], refs[b]);
      if i == j {
        OneSectionDoesNotClash(norm, drafts[i], refs[a], refs[b]);
      }
      assert Clash(norm, drafts, i, j, refs[a], refs[b]);
    }
  }

  /** A draft with one chunk that cites it. */
  function CitesOne(m: Meta, lead: Lead): Draft {
    Answered([Marker(lead, [1])], [m], None)
  }

  lemma {:induction false} CitesItsChunk(m: Meta, lead: Lead, t: Raw)
    ensures CitedIn(CitesOne(m, lead), t) <==> t == m.raw
  {
    var answer, panel := [Marker(lead, [1])], [m];
    assert Panel([m], 0) == [] && Panel([m], 1) == panel;
    assert answer[0].nums[0] in Cited(answer);
    assert CitedPapers(Cited(answer), panel, 0) == [] && CitedPapers(Cited(answer), panel, 1) == panel;
    assert Raws(panel) == [m.raw];
  }

  /** The smallest report that lists a paper twice: two sections cite it under two stored titles. */
  lemma {:induction false} OnePaperListedTwice(norm: Raw -> Title, t: Raw, u: Raw, lead: Lead, refs: seq<Raw>)
    requires t != u && norm(t) == norm(u)
    requires Unrepeated(refs)
    requires var drafts := [CitesOne(Meta(t, norm(t)), lead), CitesOne(Meta(u, norm(u)), lead)];
             forall r :: r in refs <==> CitedBefore(drafts, 2, r)
    ensures (refs == [t, u] || refs == [u, t]) && !DistinctNorms(norm, refs)
  {
    var drafts := [CitesOne(Meta(t, norm(t)), lead), CitesOne(Meta(u, norm(u)), lead)];
    forall r ensures CitedBefore(drafts, 2, r) <==> r == t || r == u {
      CitesItsChunk(drafts[0].metas[0], lead, r);
      CitesItsChunk(drafts[1].metas[0], lead, r);
      OneMoreDraft(drafts, 0, r);
      OneMoreDraft(drafts, 1, r);
    }
    assert t in refs && u in refs;
    assert forall i :: 0 <= i < |refs| ==> refs[i] in refs;
    if |refs| > 2 {
      ThreeAreApart(refs);
      assert false;
    }
    assert norm(refs[0]) == norm(refs[1]);
  }

  lemma {:induction false} ThreeAreApart(refs: seq<Raw>)
    requires Unrepeated(refs) && |refs| > 2
    ensures refs[0] != refs[1] && refs[1] != refs[2] && refs[0] != refs[2]
  {
  }
}
