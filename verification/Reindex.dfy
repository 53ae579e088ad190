/**
 The replay and the backfill of reindex.py: the collection rebuilt from the ingest log, and the
 log rebuilt from the collection.
 */
module Reindex {
  import opened Common
  import opened VectorStore
  import opened ThreeStores
  import opened Reconcile

  /** A logged paper names itself on every chunk, and its chunk ids are its own. */
  ghost predicate WellLogged(owner: map<Id, Paper>, e: Event) {
    && e.paper.Some?
    && forall i :: 0 <= i < |e.items| ==> e.items[i].row.paper == e.paper && ItemOwned(owner, e.items[i])
  }

  ghost predicate AllWellLogged(owner: map<Id, Paper>, events: seq<Event>) {
    forall k :: 0 <= k < |events| ==> WellLogged(owner, events[k])
  }

  /** The collection the first `n` events describe. */
  function Replayed(events: seq<Event>, n: nat): map<Id, Row>
    requires n <= |events|
  {
    if n == 0 then map[] else Put(Replayed(events, n - 1), events[n - 1].items, All, 0, |events[n - 1].items|)
  }

  /** Item `i` of row `k` is the last one logged under its id. */
  ghost predicate LastOfItsId(events: seq<Event>, n: nat, k: nat, i: nat)
    requires k < n <= |events| && i < |events[k].items|
  {
    forall l, j :: k <= l < n && 0 <= j < |events[l].items| && (l > k || j > i) ==>
                     events[l].items[j].id != events[k].items[i].id
  }

  /** A replayed id has the chunk logged last under it, and only logged ids are replayed. */
  lemma {:induction false} LastLoggedWins(events: seq<Event>, n: nat, k: nat, i: nat)
    requires k < n <= |events| && i < |events[k].items| && LastOfItsId(events, n, k, i)
    ensures var item, rows := events[k].items[i], Replayed(events, n);
            item.id in rows && rows[item.id] == item.row
  {
    var item, items := events[k].items[i], events[n - 1].items;
    if k == n - 1 {
      LastLandedWins(Replayed(events, n - 1), items, All, 0, |items|, i);
    } else {
      LastLoggedWins(events, n - 1, k, i);
      OthersKeepTheirs(Replayed(events, n - 1), items, All, 0, |items|, item.id);
    }
  }

  /** Adding a slice of a row's chunks is adding those chunks. */
  lemma {:induction false} PutSlice(rows: map<Id, Row>, items: seq<Item>, lo: nat, hi: nat, n: nat)
    requires lo <= hi <= |items| && n <= hi - lo
    ensures Put(rows, items[lo..hi], All, 0, n) == Put(rows, items, All, lo, lo + n)
  {
    if n == 0 {
    } else {
      PutSlice(rows, items, lo, hi, n - 1);
      assert items[lo..hi][n - 1] == items[lo + n - 1];
    }
  }

  /** Adding over other rows is adding, laid over those rows. */
  lemma {:induction false} PutOver(base: map<Id, Row>, rows: map<Id, Row>, items: seq<Item>, lo: nat, hi: nat)
    requires lo <= hi <= |items|
    ensures Put(base + rows, items, All, lo, hi) == base + Put(rows, items, All, lo, hi)
    decreases hi
  {
    if hi == lo {
    } else {
      PutOver(base, rows, items, lo, hi - 1);
      SetOver(base, Put(rows, items, All, lo, hi - 1), items[hi - 1].id, items[hi - 1].row);
    }
  }

  lemma {:induction false} SetOver(base: map<Id, Row>, rows: map<Id, Row>, id: Id, row: Row)
    ensures (base + rows)[id := row] == base + rows[id := row]
  {
  }

  datatype Outcome = NothingLogged | DryRun | Refused | Aborted | Completed

  /**
   The reset of the target: which of its rows survive, as all do when the deletion fails, since its
   exceptions are swallowed; and whether the collection then opens.
   */
  datatype Reset = Reset(survivors: set<Id>, opens: bool)

  /** How a replay is asked for, its reset, and the environment of each slice: does it embed, how does its add fare? */
  datatype Request = Request(dryRun: bool, live: bool, confirm: bool, batchSize: int, upsertBatch: int,
                             reset: Reset, embeds: (nat, nat) -> bool, weather: (nat, nat) -> Weather)

  /** What a reset leaves. */
  function Kept(rows: map<Id, Row>, reset: Reset): (kept: map<Id, Row>)
    ensures forall id :: id in kept <==> id in rows && id in reset.survivors
    ensures forall id :: id in kept ==> kept[id] == rows[id]
  {
    map id | id in rows && id in reset.survivors :: rows[id]
  }

  /** Where a replay stopped: before its first slice, or in the slice of row `k` that starts at `start`. */
  datatype Stop = AtTheStart | Unembedded(k: nat, start: nat) | Uncounted(k: nat, start: nat)
                | Unwritten(k: nat, start: nat, lo: nat, hi: nat)

  function SliceEnd(events: seq<Event>, request: Request, k: nat, start: nat): (end: nat)
    requires k < |events| && start <= |events[k].items| && request.batchSize > 0
    ensures end <= |events[k].items| && end - start <= request.batchSize
    ensures end < |events[k].items| ==> end - start == request.batchSize
  {
    Min(|events[k].items|, start + request.batchSize)
  }

  /**
   The rows an aborted replay leaves: over what survived the reset, the log rows before the one it
   stopped in, the slices of that one before the failing one, and of the failing slice nothing,
   all, or what its failed add left.
   */
  ghost predicate StoppedAt(base: map<Id, Row>, events: seq<Event>, request: Request, stop: Stop, rows: map<Id, Row>) {
    if stop.AtTheStart? then (request.batchSize == 0 || !request.reset.opens) && rows == base
    else
      && request.batchSize > 0 && stop.k < |events| && stop.start < |events[stop.k].items|
      && var items, weather := events[stop.k].items, request.weather(stop.k, stop.start);
         var slice := items[stop.start..SliceEnd(events, request, stop.k, stop.start)];
         var done := base + Put(Replayed(events, stop.k), items, All, 0, stop.start);
         match stop
         case Unembedded(_, _) => !request.embeds(stop.k, stop.start) && rows == done
         case Uncounted(_, _) =>
           !weather.countWorks &&
           rows == base + Put(Replayed(events, stop.k), items, All, 0, SliceEnd(events, request, stop.k, stop.start))
         case Unwritten(_, _, lo, hi) =>
           lo <= hi <= |slice| && weather.batch(lo).Fails? && rows == AfterFailure(done, slice, lo, hi, weather)
         case AtTheStart => false
  }

  /**
   `reindex`: the target is reset and refilled.  A replay that completes leaves the logged contents
   over whatever survived the reset, whatever the batch size, as long as it is positive; zero
   raises after the reset, and a negative one completes with the survivors alone.  An aborted one
   leaves the prefix it had replayed, and the lexical index of what was there before.
   */
  method ReplayLog(events: seq<Event>, target: Stores, request: Request) returns (outcome: Outcome, ghost stop: Stop)
    modifies target
    ensures outcome in {NothingLogged, DryRun, Refused} ==>
              target.rows == old(target.rows) && target.bm25 == old(target.bm25)
    ensures outcome.NothingLogged? <==> events == []
    ensures outcome.Completed? ==>
              target.bm25 == None && target.rows == Refilled(Kept(old(target.rows), request.reset), events, request)
    ensures outcome.Completed? && request.batchSize > 0 ==>
              target.rows == Kept(old(target.rows), request.reset) + Replayed(events, |events|)
    ensures outcome.Completed? && request.batchSize < 0 ==> target.rows == Kept(old(target.rows), request.reset)
    ensures outcome.Aborted? ==>
              && StoppedAt(Kept(old(target.rows), request.reset), events, request, stop, target.rows)
              && target.bm25 == old(target.bm25)
    ensures outcome.DryRun? <==> events != [] && request.dryRun
    ensures events != [] && (request.batchSize == 0 || !request.reset.opens) ==> !outcome.Completed?
    ensures outcome.Refused? <==> events != [] && !request.dryRun && request.live && !request.confirm
    ensures target.log == old(target.log)
  {
    if events == [] {
      return NothingLogged, AtTheStart;
    }
    if request.dryRun {
      return DryRun, AtTheStart;
    }
    if request.live && !request.confirm {
      return Refused, AtTheStart;
    }
    target.rows := Kept(target.rows, request.reset);
    if !request.reset.opens || request.batchSize == 0 {
      return Aborted, AtTheStart;     // range() refuses a zero step
    }
    ghost var base := target.rows;
    assert base + map[] == base;
    hide Put, AfterFailure, Kept;
    for k := 0 to |events|
      invariant target.rows == if request.batchSize > 0 then base + Replayed(events, k) else base
      invariant target.log == old(target.log) && target.bm25 == old(target.bm25)
    {
      var items := events[k].items;
      var start := 0;
      while request.batchSize > 0 && start < |items|
        invariant start <= |items| && target.log == old(target.log) && target.bm25 == old(target.bm25)
        invariant request.batchSize > 0 ==> target.rows == base + Put(Replayed(events, k), items, All, 0, start)
        invariant request.batchSize < 0 ==> target.rows == base
        decreases |items| - start
      {
        if !request.embeds(k, start) {
          return Aborted, Unembedded(k, start);
        }
        var end := SliceEnd(events, request, k, start);
        ghost var done := Put(Replayed(events, k), items, All, 0, start);
        var added, landed, lo, hi :=
          target.AddDocuments(items[start..end], request.upsertBatch, request.weather(k, start));
        if landed {
          PutSlice(base + done, items, start, end, end - start);
          PutOver(base, done, items, start, end);
          PutSplits(Replayed(events, k), items, All, 0, start, end);
        }
        if !added {
          return Aborted, if landed then Uncounted(k, start) else Unwritten(k, start, lo, hi);
        }
        start := end;
      }
    }
    target.bm25 := None;
    return Completed, AtTheStart;
  }

  /** What a completed replay leaves in a target in which `base` survived the reset. */
  function Refilled(base: map<Id, Row>, events: seq<Event>, request: Request): map<Id, Row> {
    if request.batchSize > 0 then base + Replayed(events, |events|) else base
  }

  lemma {:induction false} ReplayedKeys(owner: map<Id, Paper>, events: seq<Event>, n: nat)
    requires AllWellLogged(owner, events) && n <= |events|
    ensures Attributed(owner, Replayed(events, n))
    ensures forall p :: Mine(owner, Replayed(events, n).Keys, p) == LogIds(events, p, n)
  {
    if n == 0 {
    } else {
      ReplayedKeys(owner, events, n - 1);
      var e, before := events[n - 1], Replayed(events, n - 1);
      assert WellLogged(owner, e);
      PutAll(owner, before, e.items);
      forall p ensures Mine(owner, Replayed(events, n).Keys, p) == LogIds(events, p, n) {
        MineSplits(owner, before.Keys, Keys(e.items), p);
        OwnIds(owner, e, p);
        hide Put, Mine, Attributed;
      }
    }
  }

  lemma {:induction false} OwnIds(owner: map<Id, Paper>, e: Event, p: Paper)
    requires WellLogged(owner, e)
    ensures Keys(e.items) == ItemIds(e.items)
    ensures Mine(owner, Keys(e.items), p) == if e.paper == Some(p) then ItemIds(e.items) else {}
  {
  }

  /** What is logged, and an index rebuilt from it, agree with the log. */
  lemma {:induction false} ReplayAgrees(owner: map<Id, Paper>, events: seq<Event>)
    requires AllWellLogged(owner, events)
    ensures var rows := Replayed(events, |events|); Agreement(events, rows, Some(rows.Keys))
  {
    var rows := Replayed(events, |events|);
    ReplayedKeys(owner, events, |events|);
    forall p ensures LogIds(events, p, |events|) == PaperIds(rows, p) {
      PaperIdsAreMine(owner, rows, p);
    }
    assert rows.Keys == AttributedIds(rows) by {
      forall id | id in rows ensures id in AttributedIds(rows) {
        assert ItemOwned(owner, Item(id, rows[id]));
      }
    }
  }

  /**
   Exactly when a completed replay and a rebuild of the lexical index bring the three stores into
   agreement: with a positive step, when only logged ids survived the reset; with a negative one,
   which adds nothing, when the survivors agree with the log as they are.
   */
  lemma {:induction false} ReplayRestoresExactly(owner: map<Id, Paper>, events: seq<Event>, base: map<Id, Row>,
                                                 request: Request)
    requires AllWellLogged(owner, events)
    ensures var rows := Refilled(base, events, request);
            Agreement(events, rows, Some(rows.Keys)) <==>
            if request.batchSize > 0 then base.Keys <= Replayed(events, |events|).Keys
            else Agreement(events, base, Some(base.Keys))
  {
    var logged, rows := Replayed(events, |events|), Refilled(base, events, request);
    if request.batchSize > 0 {
      ReplayAgrees(owner, events);
      if base.Keys <= logged.Keys {
        assert base + logged == logged;
      }
      if Agreement(events, rows, Some(rows.Keys)) {
        ReplayedKeys(owner, events, |events|);
        forall id | id in base ensures id in logged {
          SurvivorIsLogged(owner, events, base, id);
        }
      }
    }
  }

  lemma {:induction false} SurvivorIsLogged(owner: map<Id, Paper>, events: seq<Event>, base: map<Id, Row>, id: Id)
    requires AllWellLogged(owner, events) && id in base
    requires var rows := base + Replayed(events, |events|); Agreement(events, rows, Some(rows.Keys))
    ensures id in Replayed(events, |events|)
  {
    var rows := base + Replayed(events, |events|);
    ReplayedKeys(owner, events, |events|);
    assert id in AttributedIds(rows);
    var p := rows[id].paper.value;
    assert id in PaperIds(rows, p);
    assert id in Mine(owner, Replayed(events, |events|).Keys, p);
  }

  /** After a reset that worked, agreement comes exactly with a positive step, if anything was logged. */
  lemma {:induction false} ReplayNeedsAPositiveStep(owner: map<Id, Paper>, events: seq<Event>, request: Request)
    requires AllWellLogged(owner, events) && exists k :: 0 <= k < |events| && events[k].items != []
    ensures var rows := Refilled(map[], events, request);
            Agreement(events, rows, Some(rows.Keys)) <==> request.batchSize > 0
  {
    ReplayRestoresExactly(owner, events, map[], request);
    if request.batchSize <= 0 {
      var k :| 0 <= k < |events| && events[k].items != [];
      assert WellLogged(owner, events[k]);
      var p := events[k].paper.value;
      LoggedIsLogged(events, k, |events|);
      assert events[k].items[0].id in ItemIds(events[k].items);
      var none: map<Id, Row> := map[];
      assert PaperIds(none, p) == {};
    }
  }

  /** The smallest replay that a failed reset spoils: it completes, and a chunk the log has dropped is still there. */
  lemma {:induction false} SurvivorWitness(p: Paper, a: Id, b: Id, text: Text, request: Request)
    requires a != b && a in request.reset.survivors && request.batchSize > 0
    ensures var row := Row(Some(p), text);
            var events, before := [Event(Some(p), [Item(b, row)])], map[a := row];
            var rows := Refilled(Kept(before, request.reset), events, request);
            && AllWellLogged(map[b := p], events)
            && rows == map[a := row, b := row] && !Agreement(events, rows, Some(rows.Keys))
  {
    var row := Row(Some(p), text);
    var events, before := [Event(Some(p), [Item(b, row)])], map[a := row];
    assert Kept(before, request.reset) == before;
    assert WellLogged(map[b := p], events[0]);
    assert Replayed(events, 0) == map[];
    assert Put(map[], events[0].items, All, 0, 0) == map[];
    assert Replayed(events, |events|) == map[b := row];
    assert Refilled(before, events, request) == map[a := row, b := row];
    assert a in before.Keys && a !in Replayed(events, |events|).Keys;
    ReplayRestoresExactly(map[b := p], events, before, request);
  }

  lemma {:induction false} LoggedIsLogged(events: seq<Event>, k: nat, n: nat)
    requires k < n <= |events| && events[k].paper.Some?
    ensures ItemIds(events[k].items) <= LogIds(events, events[k].paper.value, n)
  {
    if k == n - 1 {
    } else {
      LoggedIsLogged(events, k, n - 1);
    }
  }

  // ----- backfill -----

  /** The listed rows of a paper, as a log row records them. */
  function ListedItems(rows: map<Id, Row>, listing: seq<Id>, p: Paper, n: nat): seq<Item>
    requires n <= |listing| && forall i :: 0 <= i < |listing| ==> listing[i] in rows
  {
    if n == 0 then []
    else
      var id := listing[n - 1];
      if rows[id].paper == Some(p) then ListedItems(rows, listing, p, n - 1) + [Item(id, rows[id])]
      else ListedItems(rows, listing, p, n - 1)
  }

  /** The rows that name the paper, by their place in the listing. */
  ghost function Names(rows: map<Id, Row>, listing: seq<Id>, p: Paper): nat -> bool {
    (i: nat) => i < |listing| && listing[i] in rows && rows[listing[i]].paper == Some(p)
  }

  ghost function RowAt(rows: map<Id, Row>, listing: seq<Id>): (nat, Item) -> bool {
    (i: nat, item: Item) => i < |listing| && listing[i] in rows && item == Item(listing[i], rows[listing[i]])
  }

  /** They are recorded as they are stored, in the order of the listing, none twice. */
  lemma {:induction false} ListedInOrder(rows: map<Id, Row>, listing: seq<Id>, p: Paper, n: nat)
    requires n <= |listing| && forall i :: 0 <= i < |listing| ==> listing[i] in rows
    ensures Selects(ListedItems(rows, listing, p, n), Names(rows, listing, p), n, RowAt(rows, listing))
  {
    if n == 0 {
    } else {
      ListedInOrder(rows, listing, p, n - 1);
      assert RowAt(rows, listing)(n - 1, Item(listing[n - 1], rows[listing[n - 1]]));
      assert Names(rows, listing, p)(n - 1) <==> rows[listing[n - 1]].paper == Some(p);
      var before, now := ListedItems(rows, listing, p, n - 1), ListedItems(rows, listing, p, n);
      hide Names, RowAt, Selects;
      SelectsNext(before, Names(rows, listing, p), n - 1, RowAt(rows, listing), now);
    }
  }

  /** The log after a backfill: every paper the collection holds is logged as it is stored. */
  ghost predicate Backfilled(rows: map<Id, Row>, listing: seq<Id>, log: map<Paper, seq<Item>>, log': map<Paper,
                             seq<Item>>) {
    && Lists(listing, rows)
    && (forall p :: p in log' <==> p in log || PaperIds(rows, p) != {})
    && (forall p :: p in log' ==>
          log'[p] == if PaperIds(rows, p) != {} then ListedItems(rows, listing, p, |listing|) else log[p])
  }

  /** The papers of the collection, each with its rows in listed order. */
  ghost predicate Grouped(rows: map<Id, Row>, listing: seq<Id>, papers: map<Paper, seq<Item>>)
    requires Lists(listing, rows)
  {
    && (forall p :: p in papers <==> PaperIds(rows, p) != {})
    && (forall p :: p in papers ==> papers[p] == ListedItems(rows, listing, p, |listing|))
  }

  /** The grouping loop: each paper's rows, in the order they are listed. */
  method GroupByPaper(rows: map<Id, Row>, listing: seq<Id>) returns (papers: map<Paper, seq<Item>>)
    requires Lists(listing, rows)
    ensures Grouped(rows, listing, papers)
  {
    papers := map[];
    for n := 0 to |listing|
      invariant forall p :: p in papers <==> ListedIds(rows, listing, p, n) != {}
      invariant forall p :: GetOr(papers, p, []) == ListedItems(rows, listing, p, n)
    {
      var row := rows[listing[n]];
      if row.paper.Some? {
        papers := papers[row.paper.value := GetOr(papers, row.paper.value, []) + [Item(listing[n], row)]];
      }
    }
    forall p ensures ListedIds(rows, listing, p, |listing|) == PaperIds(rows, p) {
      AllListed(rows, listing, p);
    }
    hide ListedItems, ListedIds, Lists, PaperIds;
    assert forall p :: p in papers ==> papers[p] == GetOr(papers, p, []);
  }

  /** `backfill_log_from_collection`, with its one transaction going through. */
  method BackfillLog(rows: map<Id, Row>, listing: seq<Id>, log: map<Paper, seq<Item>>)
    returns (log': map<Paper, seq<Item>>, count: nat)
    requires Lists(listing, rows)
    ensures Backfilled(rows, listing, log, log') && count == |PapersIn(rows)|
  {
    var papers := GroupByPaper(rows, listing);
    PapersAre(rows, listing, papers);
    log' := log;
    var left := papers.Keys;
    assert Merging(log, papers, left, log');
    hide *;
    while left != {}
      invariant left <= papers.Keys && Merging(log, papers, left, log')
      decreases |left|
    {
      var p :| p in left;
      MergeOne(log, papers, left, log', p);
      log' := log'[p := papers[p]];
      left := left - {p};
    }
    MergedIsBackfilled(rows, listing, log, papers, log');
    count := |papers|;
  }

  /** The papers that rows of the collection name. */
  ghost function PapersIn(rows: map<Id, Row>): set<Paper> {
    set id | id in rows && rows[id].paper.Some? :: rows[id].paper.value
  }

  lemma {:induction false} PapersAre(rows: map<Id, Row>, listing: seq<Id>, papers: map<Paper, seq<Item>>)
    requires Lists(listing, rows) && Grouped(rows, listing, papers)
    ensures papers.Keys == PapersIn(rows) && |papers| == |PapersIn(rows)|
  {
    forall p ensures p in papers <==> p in PapersIn(rows) {
      PapersHaveRows(rows, p);
    }
    assert |papers| == |papers.Keys|;
  }

  lemma {:induction false} MergedIsBackfilled(rows: map<Id, Row>, listing: seq<Id>, log: map<Paper, seq<Item>>,
                                              papers: map<Paper, seq<Item>>, log': map<Paper, seq<Item>>)
    requires Lists(listing, rows) && Grouped(rows, listing, papers) && Merging(log, papers, {}, log')
    ensures Backfilled(rows, listing, log, log')
  {
    hide Lists;
  }

  lemma {:induction false} PapersHaveRows(rows: map<Id, Row>, p: Paper)
    ensures p in PapersIn(rows) <==> PaperIds(rows, p) != {}
  {
    if id :| id in PaperIds(rows, p) {
      assert rows[id].paper.value in PapersIn(rows);
    }
    if p in PapersIn(rows) {
      var id :| id in rows && rows[id].paper.Some? && rows[id].paper.value == p;
      assert id in PaperIds(rows, p);
    }
  }

  /** The log with the rows recorded so far: those of the papers not left. */
  ghost predicate Merging(log: map<Paper, seq<Item>>, papers: map<Paper, seq<Item>>, left: set<Paper>,
                          log': map<Paper, seq<Item>>) {
    && (forall p :: p in log' <==> p in log || (p in papers && p !in left))
    && (forall p :: p in log' ==> log'[p] == if p in papers && p !in left then papers[p] else log[p])
  }

  lemma {:induction false} MergeOne(log: map<Paper, seq<Item>>, papers: map<Paper, seq<Item>>, left: set<Paper>,
                                    log': map<Paper, seq<Item>>, p: Paper)
    requires Merging(log, papers, left, log') && p in left && left <= papers.Keys
    ensures Merging(log, papers, left - {p}, log'[p := papers[p]])
  {
  }

  /** What `get_ingest_events` returns: one event per logged paper, in some order. */
  ghost predicate EventsOf(log: map<Paper, seq<Item>>, events: seq<Event>) {
    && (forall k :: 0 <= k < |events| ==>
          events[k].paper.Some? && events[k].paper.value in log && events[k].items == log[events[k].paper.value])
    && (forall p :: p in log ==> exists k :: 0 <= k < |events| && events[k].paper == Some(p))
  }

  lemma {:induction false} ListedItemsAre(rows: map<Id, Row>, listing: seq<Id>, p: Paper, n: nat)
    requires n <= |listing| && Lists(listing, rows)
    ensures ItemIds(ListedItems(rows, listing, p, n)) == ListedIds(rows, listing, p, n)
    ensures forall item :: item in ListedItems(rows, listing, p, n) ==>
              item.id in rows && rows[item.id] == item.row && item.row.paper == Some(p)
  {
    if n == 0 {
    } else {
      ListedItemsAre(rows, listing, p, n - 1);
      if rows[listing[n - 1]].paper == Some(p) {
        OneMoreItem(ListedItems(rows, listing, p, n - 1), Item(listing[n - 1], rows[listing[n - 1]]));
      }
    }
  }

  lemma {:induction false} OneMoreItem(items: seq<Item>, item: Item)
    ensures ItemIds(items + [item]) == ItemIds(items) + {item.id}
  {
    var all := items + [item];
    assert all[|items|] == item;
    forall id | id in ItemIds(items) ensures id in ItemIds(all) {
      var i :| 0 <= i < |items| && items[i].id == id;
      assert all[i].id == id;
    }
  }

  /** Every row of a replay is some logged item. */
  lemma {:induction false} ReplayedFromLog(events: seq<Event>, n: nat, id: Id) returns (k: nat)
    requires n <= |events| && id in Replayed(events, n)
    ensures k < n && Item(id, Replayed(events, n)[id]) in events[k].items
  {
    var items := events[n - 1].items;
    PutRows(Replayed(events, n - 1), items, All, 0, |items|, id);
    assert items[0..|items|] == items;
    if Item(id, Replayed(events, n)[id]) in items {
      k := n - 1;
    } else {
      k := ReplayedFromLog(events, n - 1, id);
    }
  }

  /** Chunk ids do not collide: attributed rows, and the papers only the log knows, have their own. */
  ghost predicate NoCollisions(owner: map<Id, Paper>, rows: map<Id, Row>, log: map<Paper, seq<Item>>) {
    && (forall id :: id in rows && rows[id].paper.Some? ==> ItemOwned(owner, Item(id, rows[id])))
    && (forall p :: p in log ==> WellLogged(owner, Event(Some(p), log[p])))
  }

  lemma {:induction false} BackfilledIsWellLogged(owner: map<Id, Paper>, rows: map<Id, Row>, listing: seq<Id>,
                                                  log: map<Paper, seq<Item>>, log': map<Paper, seq<Item>>,
                                                  events: seq<Event>)
    requires NoCollisions(owner, rows, log) && Backfilled(rows, listing, log, log') && EventsOf(log', events)
    ensures AllWellLogged(owner, events)
  {
    forall k | 0 <= k < |events| ensures WellLogged(owner, events[k]) {
      var p := events[k].paper.value;
      if PaperIds(rows, p) != {} {
        ListedItemsAre(rows, listing, p, |listing|);
        var items := events[k].items;
        forall i | 0 <= i < |items| ensures items[i].row.paper == Some(p) && ItemOwned(owner, items[i]) {
          assert items[i] in ListedItems(rows, listing, p, |listing|);
        }
      } else {
        assert WellLogged(owner, Event(Some(p), log[p]));
      }
    }
  }

  /**
   Backfill, then replay, with any positive batch size: every attributed row comes back with its
   id, its text and its paper, and whatever else is there belongs to papers only the log knew.
   */
  lemma {:induction false} BackfillThenReplay(owner: map<Id, Paper>, rows: map<Id, Row>, listing: seq<Id>,
                                              log: map<Paper, seq<Item>>, log': map<Paper, seq<Item>>,
                                              events: seq<Event>, id: Id)
    requires NoCollisions(owner, rows, log) && Backfilled(rows, listing, log, log') && EventsOf(log', events)
    ensures var replay := Replayed(events, |events|);
            && (id in AttributedIds(rows) ==> id in replay && replay[id] == rows[id])
            && (id in replay && id !in AttributedIds(rows) ==>
                  replay[id].paper.Some? && replay[id].paper.value in log &&
                  PaperIds(rows, replay[id].paper.value) == {})
  {
    BackfilledIsWellLogged(owner, rows, listing, log, log', events);
    if id in AttributedIds(rows) {
      ComesBack(owner, rows, listing, log, log', events, id);
    }
    if id in Replayed(events, |events|) {
      ComesFrom(owner, rows, listing, log, log', events, id);
    }
  }

  lemma {:induction false} ComesBack(owner: map<Id, Paper>, rows: map<Id, Row>, listing: seq<Id>, log: map<Paper,
                                     seq<Item>>,
                                     log': map<Paper, seq<Item>>, events: seq<Event>, id: Id)
    requires Backfilled(rows, listing, log, log') && EventsOf(log', events) && AllWellLogged(owner, events)
    requires id in AttributedIds(rows)
    ensures id in Replayed(events, |events|)
  {
    var p := rows[id].paper.value;
    assert id in PaperIds(rows, p);
    AllListed(rows, listing, p);
    ListedItemsAre(rows, listing, p, |listing|);
    var k :| 0 <= k < |events| && events[k].paper == Some(p);
    LoggedIsLogged(events, k, |events|);
    ReplayedKeys(owner, events, |events|);
    assert id in Mine(owner, Replayed(events, |events|).Keys, p);
  }

  /** A replayed row is the stored row it was backfilled from, or it belongs to a paper only the log knew. */
  lemma {:induction false} ComesFrom(owner: map<Id, Paper>, rows: map<Id, Row>, listing: seq<Id>, log: map<Paper,
                                     seq<Item>>,
                                     log': map<Paper, seq<Item>>, events: seq<Event>, id: Id)
    requires NoCollisions(owner, rows, log) && Backfilled(rows, listing, log, log') && EventsOf(log', events)
    requires AllWellLogged(owner, events) && id in Replayed(events, |events|)
    ensures var row := Replayed(events, |events|)[id];
            && row.paper.Some?
            && (if PaperIds(rows, row.paper.value) != {} then id in rows && rows[id] == row
                else row.paper.value in log && id !in AttributedIds(rows))
  {
    var row := Replayed(events, |events|)[id];
    var k := ReplayedFromLog(events, |events|, id);
    assert WellLogged(owner, events[k]);
    var i :| 0 <= i < |events[k].items| && events[k].items[i] == Item(id, row);
    var p := events[k].paper.value;
    assert row.paper == Some(p) && ItemOwned(owner, Item(id, row));
    assert id in AttributedIds(rows) ==> id in PaperIds(rows, p) by {
      if id in AttributedIds(rows) {
        assert ItemOwned(owner, Item(id, rows[id]));
      }
    }
    if PaperIds(rows, p) != {} {
      ListedItemsAre(rows, listing, p, |listing|);
      assert Item(id, row) in ListedItems(rows, listing, p, |listing|);
    }
  }

  /** Stores that a run kept in step, with the lexical index rebuilt, are what the reconciler calls consistent. */
  lemma {:induction false} InStepIsConsistent(owner: map<Id, Paper>, w: World, events: seq<Event>)
    requires InStep(owner, w) && (forall p :: LogIds(events, p, |events|) == Logged(w.log, p))
    requires w.bm25.Some? ==> w.bm25.value == w.rows.Keys
    ensures Agreement(events, w.rows, w.bm25)
  {
    InStepMeans(owner, w);
    forall id | id in w.rows ensures id in AttributedIds(w.rows) {
      assert ItemOwned(owner, Item(id, w.rows[id]));
    }
  }
}
