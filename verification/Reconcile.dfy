/**
 The reconciler of check_db.py, and the replay and the backfill of reindex.py: how the ingest
 log, the collection and the lexical index are compared and put back in agreement.
 */
module Reconcile {
  import opened Common
  import opened VectorStore

  /** A row of the ingest log: its paper, and the chunks a replay would store. */
  datatype Event = Event(paper: Option<Paper>, items: seq<Item>)

  datatype Kind = MissingFromChroma | ExtraInChroma | NotInLog | MissingFromBm25 | StaleInBm25

  datatype Divergence = Divergence(paper: Option<Paper>, kind: Kind, ids: set<Id>)

  function ItemIds(items: seq<Item>): set<Id> {
    set i | 0 <= i < |items| :: items[i].id
  }

  /** What the first `n` events log for a paper, and whether they mention it. */
  ghost function LogIds(events: seq<Event>, p: Paper, n: nat): set<Id>
    requires n <= |events|
  {
    if n == 0 then {}
    else if events[n - 1].paper == Some(p) then LogIds(events, p, n - 1) + ItemIds(events[n - 1].items)
    else LogIds(events, p, n - 1)
  }

  ghost predicate InLog(events: seq<Event>, p: Paper, n: nat)
    requires n <= |events|
  {
    n > 0 && (events[n - 1].paper == Some(p) || InLog(events, p, n - 1))
  }

  /** All ids of rows that name a paper. */
  ghost function AttributedIds(rows: map<Id, Row>): set<Id> {
    set id | id in rows && rows[id].paper.Some?
  }

  /** The three stores agree: per paper the log is the collection, and the lexical index serves just that. */
  ghost predicate Agreement(events: seq<Event>, rows: map<Id, Row>, bm25: Option<set<Id>>) {
    && (forall p :: LogIds(events, p, |events|) == PaperIds(rows, p))
    && (bm25.Some? ==> bm25.value == AttributedIds(rows))
  }

  /** What each kind of finding means. */
  ghost predicate Reported(d: Divergence, events: seq<Event>, rows: map<Id, Row>, bm25: Option<set<Id>>) {
    d.ids != {} &&
    match d.kind
    case StaleInBm25 => d.paper.None? && bm25.Some? && d.ids == bm25.value - AttributedIds(rows)
    case _ => d.paper.Some? && ReportedFor(d.paper.value, d.kind, d.ids, events, rows, bm25)
  }

  ghost predicate ReportedFor(p: Paper, kind: Kind, ids: set<Id>, events: seq<Event>, rows: map<Id, Row>,
                              bm25: Option<set<Id>>) {
    var logged, stored := LogIds(events, p, |events|), PaperIds(rows, p);
    match kind
    case MissingFromChroma => InLog(events, p, |events|) && ids == logged - stored
    case ExtraInChroma => InLog(events, p, |events|) && ids == stored - logged
    case NotInLog => !InLog(events, p, |events|) && ids == stored
    case MissingFromBm25 => InLog(events, p, |events|) && bm25.Some? && ids == stored - bm25.value
    case StaleInBm25 => false
  }

  /** Some log row of the paper has a chunk of this id. */
  ghost predicate IsLogged(events: seq<Event>, p: Paper, id: Id, n: nat)
    requires n <= |events|
  {
    exists k, i :: 0 <= k < n && events[k].paper == Some(p) && 0 <= i < |events[k].items| && events[k].items[i].id == id
  }

  lemma {:induction false} LoggedIds(events: seq<Event>, p: Paper, n: nat)
    requires n <= |events|
    ensures forall id :: id in LogIds(events, p, n) <==> IsLogged(events, p, id, n)
    ensures InLog(events, p, n) <==> exists k :: 0 <= k < n && events[k].paper == Some(p)
  {
    if n == 0 {
    } else {
      LoggedIds(events, p, n - 1);
      forall id ensures id in LogIds(events, p, n) <==> IsLogged(events, p, id, n) {
        if IsLogged(events, p, id, n) {
          var k, i :| 0 <= k < n && events[k].paper == Some(p) && 0 <= i < |events[k].items| &&
                      events[k].items[i].id == id;
          if k < n - 1 {
            assert IsLogged(events, p, id, n - 1);
          }
        }
        if events[n - 1].paper == Some(p) && id in ItemIds(events[n - 1].items) {
          var i :| 0 <= i < |events[n - 1].items| && events[n - 1].items[i].id == id;
          assert IsLogged(events, p, id, n);
        }
      }
    }
  }

  /**
   The findings id by id: about a paper with a log row, the logged ids that the collection lacks, the
   stored ids that the log lacks, and the stored ids that are not served; about any other paper its
   stored ids; and the served ids of no attributed row.
   */
  lemma {:induction false} FindingsMean(d: Divergence, events: seq<Event>, rows: map<Id, Row>, bm25: Option<set<Id>>)
    requires Reported(d, events, rows, bm25)
    ensures d.ids != {} && (d.kind in {StaleInBm25, MissingFromBm25} ==> bm25.Some?)
    ensures d.kind == StaleInBm25 ==>
              forall id :: id in d.ids <==> id in bm25.value && !(id in rows && rows[id].paper.Some?)
    ensures d.kind != StaleInBm25 ==>
              && d.paper.Some?
              && (d.kind == NotInLog <==> !exists k :: 0 <= k < |events| && events[k].paper == d.paper)
              && forall id :: id in d.ids <==>
                   var stored := id in rows && rows[id].paper == d.paper;
                   var logged := IsLogged(events, d.paper.value, id, |events|);
                   match d.kind
                   case MissingFromChroma => logged && !stored
                   case ExtraInChroma => stored && !logged
                   case NotInLog => stored
                   case _ => stored && id !in bm25.value
  {
    if d.paper.Some? {
      LoggedIds(events, d.paper.value, |events|);
      assert forall id :: id in PaperIds(rows, d.paper.value) <==> id in rows && rows[id].paper == d.paper;
    }
    hide LogIds, InLog, IsLogged;
  }

  /** Agreement id by id. */
  lemma {:induction false} AgreementMeans(events: seq<Event>, rows: map<Id, Row>, bm25: Option<set<Id>>)
    ensures Agreement(events, rows, bm25) <==>
            && (forall p, id :: IsLogged(events, p, id, |events|) <==> id in PaperIds(rows, p))
            && (bm25.Some? ==> forall id :: id in bm25.value <==> id in rows && rows[id].paper.Some?)
  {
    forall p ensures LogIds(events, p, |events|) == PaperIds(rows, p) <==>
                     forall id :: IsLogged(events, p, id, |events|) <==> id in PaperIds(rows, p)
    {
      LoggedIds(events, p, |events|);
    }
    hide LogIds, IsLogged, PaperIds;
  }

  lemma {:induction false} NotLoggedIsEmpty(events: seq<Event>, p: Paper, n: nat)
    requires n <= |events| && !InLog(events, p, n)
    ensures LogIds(events, p, n) == {}
  {
    if n == 0 {
    } else {
      NotLoggedIsEmpty(events, p, n - 1);
    }
  }

  lemma {:induction false} AgreementReportsNothing(events: seq<Event>, rows: map<Id, Row>, bm25: Option<set<Id>>,
                                                   d: Divergence)
    requires Agreement(events, rows, bm25)
    ensures !Reported(d, events, rows, bm25)
  {
    if d.paper.Some? {
      var p := d.paper.value;
      if !InLog(events, p, |events|) {
        NotLoggedIsEmpty(events, p, |events|);
      }
      assert LogIds(events, p, |events|) == PaperIds(rows, p) <= AttributedIds(rows);
    }
  }

  lemma {:induction false} NothingReportedIsAgreement(events: seq<Event>, rows: map<Id, Row>, bm25: Option<set<Id>>)
    requires forall d :: !Reported(d, events, rows, bm25)
    ensures Agreement(events, rows, bm25)
  {
    forall p
      ensures LogIds(events, p, |events|) == PaperIds(rows, p)
      ensures bm25.Some? ==> PaperIds(rows, p) <= bm25.value
    {
      var logged, stored := LogIds(events, p, |events|), PaperIds(rows, p);
      assert !Reported(Divergence(Some(p), MissingFromChroma, logged - stored), events, rows, bm25);
      assert !Reported(Divergence(Some(p), ExtraInChroma, stored - logged), events, rows, bm25);
      assert !Reported(Divergence(Some(p), NotInLog, stored), events, rows, bm25);
      if bm25.Some? {
        assert !Reported(Divergence(Some(p), MissingFromBm25, stored - bm25.value), events, rows, bm25);
      }
      if !InLog(events, p, |events|) {
        NotLoggedIsEmpty(events, p, |events|);
      }
      hide LogIds, InLog, PaperIds;
    }
    if bm25.Some? {
      assert !Reported(Divergence(None, StaleInBm25, bm25.value - AttributedIds(rows)), events, rows, bm25);
      forall id | id in AttributedIds(rows) ensures id in bm25.value {
        assert id in PaperIds(rows, rows[id].paper.value);
      }
      forall id | id in bm25.value ensures id in AttributedIds(rows) {
        assert id !in bm25.value - AttributedIds(rows);
      }
    }
  }

  /** The listing a full read of the collection returns. */
  ghost predicate Lists(listing: seq<Id>, rows: map<Id, Row>) {
    && (forall i :: 0 <= i < |listing| ==> listing[i] in rows)
    && (forall id :: id in rows ==> id in listing)
    && (forall i, j :: 0 <= i < j < |listing| ==> listing[i] != listing[j])
  }

  /** The ids of a paper among the first `n` listed. */
  ghost function ListedIds(rows: map<Id, Row>, listing: seq<Id>, p: Paper, n: nat): set<Id>
    requires n <= |listing| && Lists(listing, rows)
  {
    if n == 0 then {}
    else if rows[listing[n - 1]].paper == Some(p) then ListedIds(rows, listing, p, n - 1) + {listing[n - 1]}
    else ListedIds(rows, listing, p, n - 1)
  }

  lemma {:induction false} ListedIdsAre(rows: map<Id, Row>, listing: seq<Id>, p: Paper, n: nat)
    requires n <= |listing| && Lists(listing, rows)
    ensures ListedIds(rows, listing, p, n) == set i | 0 <= i < n && rows[listing[i]].paper == Some(p) :: listing[i]
  {
    if n == 0 {
    } else {
      ListedIdsAre(rows, listing, p, n - 1);
    }
  }

  lemma {:induction false} AllListed(rows: map<Id, Row>, listing: seq<Id>, p: Paper)
    requires Lists(listing, rows)
    ensures ListedIds(rows, listing, p, |listing|) == PaperIds(rows, p)
  {
    ListedIdsAre(rows, listing, p, |listing|);
    forall id | id in PaperIds(rows, p) ensures id in ListedIds(rows, listing, p, |listing|) {
      var i :| 0 <= i < |listing| && listing[i] == id;
    }
  }

  /** `_chroma_ids_by_paper`. */
  method ChromaIdsByPaper(rows: map<Id, Row>, listing: seq<Id>) returns (byPaper: map<Paper, set<Id>>)
    requires Lists(listing, rows)
    ensures forall p :: GetOr(byPaper, p, {}) == PaperIds(rows, p)
    ensures forall p :: p in byPaper ==> byPaper[p] != {}
  {
    byPaper := map[];
    for n := 0 to |listing|
      invariant forall p :: GetOr(byPaper, p, {}) == ListedIds(rows, listing, p, n)
      invariant forall p :: p in byPaper ==> byPaper[p] != {}
    {
      var paper := rows[listing[n]].paper;
      if paper.Some? {
        byPaper := byPaper[paper.value := GetOr(byPaper, paper.value, {}) + {listing[n]}];
      }
    }
    forall p ensures ListedIds(rows, listing, p, |listing|) == PaperIds(rows, p) {
      AllListed(rows, listing, p);
    }
  }

  method LogIdsByPaper(events: seq<Event>) returns (byPaper: map<Paper, set<Id>>)
    ensures forall p :: GetOr(byPaper, p, {}) == LogIds(events, p, |events|)
    ensures forall p :: p in byPaper <==> InLog(events, p, |events|)
  {
    byPaper := map[];
    for n := 0 to |events|
      invariant forall p :: GetOr(byPaper, p, {}) == LogIds(events, p, n)
      invariant forall p :: p in byPaper <==> InLog(events, p, n)
    {
      var paper := events[n].paper;
      if paper.Some? {
        byPaper := byPaper[paper.value := GetOr(byPaper, paper.value, {}) + ItemIds(events[n].items)];
      }
    }
  }

  /** The findings about papers in `done`, and no others. */
  ghost predicate FoundFor(found: set<Divergence>, done: set<Paper>, events: seq<Event>, rows: map<Id, Row>,
                           bm25: Option<set<Id>>)
  {
    forall d :: d in found <==>
      d.paper.Some? && d.paper.value in done && d.ids != {} &&
      ReportedFor(d.paper.value, d.kind, d.ids, events, rows, bm25)
  }

  /** The first loop of `reconcile`: logged papers. */
  method FindLogged(events: seq<Event>, rows: map<Id, Row>, bm25: Option<set<Id>>, logged: map<Paper, set<Id>>,
                    stored: map<Paper, set<Id>>)
    returns (found: set<Divergence>)
    requires forall p :: GetOr(logged, p, {}) == LogIds(events, p, |events|)
    requires forall p :: p in logged <==> InLog(events, p, |events|)
    requires forall p :: GetOr(stored, p, {}) == PaperIds(rows, p)
    ensures FoundFor(found, logged.Keys, events, rows, bm25)
  {
    found := {};
    var left := logged.Keys;
    NothingFoundYet(events, rows, bm25);
    hide FoundFor, LogIds, InLog, PaperIds;
    assert logged.Keys - left == {};
    while left != {}
      invariant left <= logged.Keys && FoundFor(found, logged.Keys - left, events, rows, bm25)
      decreases |left|
    {
      var p :| p in left;
      var inLog, inChroma := logged[p], GetOr(stored, p, {});
      var now: set<Divergence> := {};
      if inLog - inChroma != {} {
        now := now + {Divergence(Some(p), MissingFromChroma, inLog - inChroma)};
      }
      if inChroma - inLog != {} {
        now := now + {Divergence(Some(p), ExtraInChroma, inChroma - inLog)};
      }
      if bm25.Some? && inChroma - bm25.value != {} {
        now := now + {Divergence(Some(p), MissingFromBm25, inChroma - bm25.value)};
      }
      assert GetOr(logged, p, {}) == inLog;
      LoggedFindings(p, now, events, rows, bm25);
      OneMorePaper(found, logged.Keys - left, p, now, events, rows, bm25);
      assert logged.Keys - (left - {p}) == logged.Keys - left + {p};
      found, left := found + now, left - {p};
    }
    assert logged.Keys - {} == logged.Keys;
  }

  /** The second loop: stored papers the log has never heard of. */
  method FindUnlogged(events: seq<Event>, rows: map<Id, Row>, bm25: Option<set<Id>>, logged: map<Paper, set<Id>>,
                      stored: map<Paper, set<Id>>, before: set<Divergence>)
    returns (found: set<Divergence>)
    requires forall p :: p in logged <==> InLog(events, p, |events|)
    requires forall p :: GetOr(stored, p, {}) == PaperIds(rows, p)
    requires forall p :: p in stored ==> stored[p] != {}
    requires FoundFor(before, logged.Keys, events, rows, bm25)
    ensures FoundFor(found, logged.Keys + stored.Keys, events, rows, bm25)
  {
    found := before;
    var left := stored.Keys;
    hide FoundFor, LogIds, InLog, PaperIds;
    ghost var done, all := logged.Keys, logged.Keys + stored.Keys;
    while left != {}
      invariant left <= stored.Keys && done + left == all && logged.Keys <= done
      invariant FoundFor(found, done, events, rows, bm25)
      decreases |left|
    {
      var p :| p in left;
      if p !in logged {
        var now := {Divergence(Some(p), NotInLog, stored[p])};
        assert GetOr(stored, p, {}) == stored[p];
        UnloggedFinding(p, now, events, rows, bm25);
        OneMorePaper(found, done, p, now, events, rows, bm25);
        found := found + now;
      }
      OneMoreDone(done, left, p);
      left, done := left - {p}, done + {p};
    }
    assert done + {} == done;
  }

  lemma {:induction false} OneMoreDone<T>(done: set<T>, left: set<T>, t: T)
    requires t in left
    ensures done + {t} + (left - {t}) == done + left
    ensures t in done ==> done + {t} == done
  {
  }

  lemma {:induction false} NothingFoundYet(events: seq<Event>, rows: map<Id, Row>, bm25: Option<set<Id>>)
    ensures FoundFor({}, {}, events, rows, bm25)
  {
  }

  /**
   `reconcile`: the findings are exactly the divergences there are, each with its exact ids, and
   the report says consistent if and only if the three stores agree.
   */
  method ReconcileStores(events: seq<Event>, rows: map<Id, Row>, listing: seq<Id>, bm25: Option<set<Id>>)
    returns (consistent: bool, divergences: set<Divergence>)
    requires Lists(listing, rows)
    ensures forall d :: d in divergences <==> Reported(d, events, rows, bm25)
    ensures consistent <==> Agreement(events, rows, bm25)
  {
    var logged := LogIdsByPaper(events);
    var stored := ChromaIdsByPaper(rows, listing);
    var found := FindLogged(events, rows, bm25, logged, stored);
    found := FindUnlogged(events, rows, bm25, logged, stored, found);
    divergences := found;
    if bm25.Some? {
      var all := set id | id in rows && rows[id].paper.Some?;
      if bm25.value - all != {} {
        divergences := divergences + {Divergence(None, StaleInBm25, bm25.value - all)};
      }
    }
    consistent := divergences == {};
    AllReported(logged.Keys + stored.Keys, found, divergences, events, rows, bm25);
    ConsistentIff(divergences, events, rows, bm25);
  }

  lemma {:induction false} AllReported(done: set<Paper>, found: set<Divergence>, divergences: set<Divergence>,
                                       events: seq<Event>, rows: map<Id, Row>, bm25: Option<set<Id>>)
    requires FoundFor(found, done, events, rows, bm25)
    requires forall p :: p !in done ==> !InLog(events, p, |events|) && PaperIds(rows, p) == {}
    requires divergences == if bm25.Some? && bm25.value - AttributedIds(rows) != {}
                            then found + {Divergence(None, StaleInBm25, bm25.value - AttributedIds(rows))} else found
    ensures forall d :: d in divergences <==> Reported(d, events, rows, bm25)
  {
    forall d ensures d in divergences <==> Reported(d, events, rows, bm25) {
      if d.paper.Some? && d.paper.value !in done {
        Unmentioned(d, events, rows, bm25);
      }
      hide InLog, LogIds, PaperIds, AttributedIds;
    }
  }

  lemma {:induction false} ConsistentIff(divergences: set<Divergence>, events: seq<Event>, rows: map<Id, Row>,
                                         bm25: Option<set<Id>>)
    requires forall d :: d in divergences <==> Reported(d, events, rows, bm25)
    ensures divergences == {} <==> Agreement(events, rows, bm25)
  {
    hide Reported, Agreement;
    if divergences == {} {
      NothingReportedIsAgreement(events, rows, bm25);
    } else {
      var d :| d in divergences;
      if Agreement(events, rows, bm25) {
        AgreementReportsNothing(events, rows, bm25, d);
      }
    }
  }

  /** A paper neither logged nor stored has nothing to report. */
  lemma {:induction false} Unmentioned(d: Divergence, events: seq<Event>, rows: map<Id, Row>, bm25: Option<set<Id>>)
    requires d.paper.Some? && !InLog(events, d.paper.value, |events|) && PaperIds(rows, d.paper.value) == {}
    ensures !Reported(d, events, rows, bm25)
  {
  }

  lemma {:induction false} LoggedFindings(p: Paper, now: set<Divergence>, events: seq<Event>, rows: map<Id, Row>,
                                          bm25: Option<set<Id>>)
    requires InLog(events, p, |events|)
    requires var logged, stored := LogIds(events, p, |events|), PaperIds(rows, p);
             now == (if logged - stored != {} then {Divergence(Some(p), MissingFromChroma, logged - stored)} else {})
                    + (if stored - logged != {} then {Divergence(Some(p), ExtraInChroma, stored - logged)} else {})
                    + (if bm25.Some? && stored - bm25.value != {}
                       then {Divergence(Some(p), MissingFromBm25, stored - bm25.value)} else {})
    ensures FoundFor(now, {p}, events, rows, bm25)
  {
    hide LogIds, InLog, PaperIds;
  }

  lemma {:induction false} UnloggedFinding(p: Paper, now: set<Divergence>, events: seq<Event>, rows: map<Id, Row>,
                                           bm25: Option<set<Id>>)
    requires !InLog(events, p, |events|) && PaperIds(rows, p) != {}
    requires now == {Divergence(Some(p), NotInLog, PaperIds(rows, p))}
    ensures FoundFor(now, {p}, events, rows, bm25)
  {
    hide LogIds, InLog, PaperIds;
  }

  lemma {:induction false} OneMorePaper(found: set<Divergence>, done: set<Paper>, p: Paper, now: set<Divergence>,
                                        events: seq<Event>, rows: map<Id, Row>, bm25: Option<set<Id>>)
    requires FoundFor(found, done, events, rows, bm25) && FoundFor(now, {p}, events, rows, bm25)
    ensures FoundFor(found + now, done + {p}, events, rows, bm25)
  {
    hide ReportedFor;
  }
}
