/**
 The system of record and its two derived views over whole runs: ingest.py adds and replaces
 papers, vector_store.py deletes them, cache_refresh.py drops and rebuilds the lexical index.
 */
module ThreeStores {
  import opened Common
  import opened VectorStore

  /** A paper ready to be stored: its chunks, as `_build_paper_chunks` hands them on. */
  datatype Prepared = Prepared(paper: Paper, items: seq<Item>)

  /** Chunk ids never collide between papers: each id has one owner. */
  ghost predicate Owned(owner: map<Id, Paper>, prepared: Prepared) {
    && prepared.items != []
    && forall i :: 0 <= i < |prepared.items| ==>
         prepared.items[i].row.paper == Some(prepared.paper) && ItemOwned(owner, prepared.items[i])
  }

  ghost predicate ItemOwned(owner: map<Id, Paper>, item: Item) {
    item.id in owner && item.row.paper == Some(owner[item.id])
  }

  ghost function Keys(items: seq<Item>): set<Id> {
    set i | 0 <= i < |items| :: items[i].id
  }

  /** The ids of a paper, by ownership. */
  ghost function Mine(owner: map<Id, Paper>, ids: set<Id>, p: Paper): set<Id> {
    set id <- ids | id in owner && owner[id] == p
  }

  ghost function Logged(log: map<Paper, set<Id>>, p: Paper): set<Id> {
    if p in log then log[p] else {}
  }

  /** Every stored row names its owner. */
  ghost predicate Attributed(owner: map<Id, Paper>, rows: map<Id, Row>) {
    forall id :: id in rows ==> ItemOwned(owner, Item(id, rows[id]))
  }

  // ----- the three stores, paper by paper -----

  datatype World = World(rows: map<Id, Row>, bm25: Option<set<Id>>, log: map<Paper, set<Id>>)

  function WorldOf(s: Stores): World
    reads s
  {
    World(s.rows, s.bm25, s.log)
  }

  ghost function Served(w: World): set<Id> {
    if w.bm25.Some? then w.bm25.value else {}
  }

  /** What the stores hold of one paper: ChromaDB, the lexical index, the log. */
  datatype View = View(rows: set<Id>, served: set<Id>, logged: set<Id>)

  ghost function ViewOf(owner: map<Id, Paper>, w: World, p: Paper): View {
    View(Mine(owner, w.rows.Keys, p), Mine(owner, Served(w), p), Logged(w.log, p))
  }

  /** The log names what ChromaDB has of the paper, and the lexical index serves nothing else. */
  ghost predicate Agrees(v: View) {
    v.rows == v.logged && v.served <= v.rows
  }

  /** Rows name their owner, ids have one, and no logged paper is empty; no failure takes this away. */
  ghost predicate Sane(owner: map<Id, Paper>, w: World) {
    && Attributed(owner, w.rows)
    && Served(w) <= owner.Keys
    && (forall p :: p in w.log ==> w.log[p] != {})
  }

  /** What runs are to keep. */
  ghost predicate InStep(owner: map<Id, Paper>, w: World) {
    Sane(owner, w) && forall p :: Agrees(ViewOf(owner, w, p))
  }

  lemma {:induction false} PaperIdsAreMine(owner: map<Id, Paper>, rows: map<Id, Row>, p: Paper)
    requires Attributed(owner, rows)
    ensures PaperIds(rows, p) == Mine(owner, rows.Keys, p)
  {
  }

  lemma {:induction false} MineSplits(owner: map<Id, Paper>, a: set<Id>, b: set<Id>, p: Paper)
    ensures Mine(owner, a + b, p) == Mine(owner, a, p) + Mine(owner, b, p)
  {
  }

  lemma {:induction false} MineMinus(owner: map<Id, Paper>, a: set<Id>, ids: set<Id>, p: Paper, q: Paper)
    requires forall id :: id in ids ==> id in owner && owner[id] == p
    ensures Mine(owner, a - ids, q) == if q == p then Mine(owner, a, p) - ids else Mine(owner, a, q)
  {
  }

  /** In step: the logged ids of every paper are its rows, and only ids of rows are served. */
  lemma {:induction false} InStepMeans(owner: map<Id, Paper>, w: World)
    requires Sane(owner, w)
    ensures InStep(owner, w) <==> (forall p :: PaperIds(w.rows, p) == Logged(w.log, p)) && Served(w) <= w.rows.Keys
  {
    forall p ensures PaperIds(w.rows, p) == Mine(owner, w.rows.Keys, p) {
      PaperIdsAreMine(owner, w.rows, p);
    }
    if InStep(owner, w) {
      forall p ensures PaperIds(w.rows, p) == Logged(w.log, p) {
        assert Agrees(ViewOf(owner, w, p));
      }
      forall id | id in Served(w) ensures id in w.rows {
        assert Agrees(ViewOf(owner, w, owner[id]));
        assert id in Mine(owner, Served(w), owner[id]);
      }
    }
  }

  lemma {:induction false} InStepIsSane(owner: map<Id, Paper>, w: World)
    requires InStep(owner, w)
    ensures Sane(owner, w)
  {
  }

  // ----- the delete -----

  /** What became of a delete: the rows are gone, the index no longer has them, the log row is dropped. */
  datatype Fate = Fate(gone: bool, unlisted: bool, dropped: bool)

  /** The cascade runs only after a ChromaDB delete that did not raise. */
  function FateOf(c: Cascade): (f: Fate)
    ensures f.unlisted || f.dropped ==> f.gone
  {
    var ran := c.lookupWorks && c.delete == Done;
    Fate(c.lookupWorks && (c.delete == Done || c.delete.anyway), ran && Happens(c.bm25), ran && Happens(c.log))
  }

  function Deleted(w: World, p: Paper, f: Fate): World {
    var ids := PaperIds(w.rows, p);
    if ids == {} then w
    else World(if f.gone then w.rows - ids else w.rows,
               if f.unlisted && w.bm25.Some? then Some(w.bm25.value - ids) else w.bm25,
               if f.dropped then w.log - {p} else w.log)
  }

  /** The same, seen from the paper. */
  function AfterDelete(v: View, f: Fate): View {
    if v.rows == {} then v
    else View(if f.gone then {} else v.rows,
              if f.unlisted then v.served - v.rows else v.served,
              if f.dropped then {} else v.logged)
  }

  lemma {:induction false} DeletedView(owner: map<Id, Paper>, w: World, p: Paper, f: Fate, q: Paper)
    requires Sane(owner, w)
    ensures Sane(owner, Deleted(w, p, f))
    ensures ViewOf(owner, Deleted(w, p, f), q) ==
            if q == p then AfterDelete(ViewOf(owner, w, p), f) else ViewOf(owner, w, q)
  {
    var ids := PaperIds(w.rows, p);
    PaperIdsAreMine(owner, w.rows, p);
    MineMinus(owner, w.rows.Keys, ids, p, q);
    MineMinus(owner, Served(w), ids, p, q);
    assert (w.rows - ids).Keys == w.rows.Keys - ids;
    assert ids == Mine(owner, ids, p);
    hide Mine, PaperIds, Attributed;
    if f.dropped && q == p {
      assert Logged(w.log - {p}, p) == {};
    }
  }

  /** A delete leaves the paper in step: its row and its log entry go together, and what is served of it goes too. */
  predicate DeleteKeeps(v: View, f: Fate) {
    v.rows == {} || (f.gone == f.dropped && (f.gone && !f.unlisted ==> v.served == {}))
  }

  /** Exactly when a delete keeps the stores in step, whatever fails in it. */
  lemma {:induction false} DeleteKeepsExactly(owner: map<Id, Paper>, w: World, p: Paper, c: Cascade)
    requires InStep(owner, w)
    ensures InStep(owner, Deleted(w, p, FateOf(c))) <==> DeleteKeeps(ViewOf(owner, w, p), FateOf(c))
  {
    var w2, v := Deleted(w, p, FateOf(c)), ViewOf(owner, w, p);
    forall q
      ensures Sane(owner, w2) &&
              ViewOf(owner, w2, q) == if q == p then AfterDelete(v, FateOf(c)) else ViewOf(owner, w, q)
      ensures Agrees(ViewOf(owner, w, q))
    {
      DeletedView(owner, w, p, FateOf(c), q);
    }
    hide Deleted, Sane, ViewOf, FateOf;
    assert Agrees(ViewOf(owner, w2, p)) <==> DeleteKeeps(v, FateOf(c));
  }

  /**
   A ChromaDB delete that raises although it lands, as one that times out does, skips the cascade:
   the stores stay in step exactly when the paper was not there.
   */
  lemma {:induction false} DeleteLandsAnyway(owner: map<Id, Paper>, w: World, p: Paper, c: Cascade)
    requires InStep(owner, w) && c.lookupWorks && c.delete == Raised(true)
    ensures Deleted(w, p, FateOf(c)) == w.(rows := w.rows - PaperIds(w.rows, p))
    ensures InStep(owner, Deleted(w, p, FateOf(c))) <==> p !in w.log
  {
    DeleteKeepsExactly(owner, w, p, c);
    PaperIdsAreMine(owner, w.rows, p);
    assert w.rows - {} == w.rows;
    assert Agrees(ViewOf(owner, w, p));
  }

  /** `delete_by_paper_id`, as the delete route calls it. */
  method Delete(s: Stores, p: Paper, c: Cascade) returns (outcome: DeleteOutcome)
    modifies s
    ensures WorldOf(s) == Deleted(old(WorldOf(s)), p, FateOf(c))
    ensures outcome.Deleted? ==> PaperIds(s.rows, p) == {}
    ensures outcome.Deleted? && PaperIds(old(s.rows), p) != {} ==> FateOf(c) == Fate(true, true, true)
  {
    outcome := s.DeleteByPaperId(p, c);
  }

  // ----- the add -----

  /** A failed add is rolled back: the probe and the rollback work, and nothing lands after it. */
  ghost predicate RollsBack(w: Weather) {
    && w.probeWorks && w.rollback.Deletes?
    && forall k :: w.batch(k).Fails? ==> w.batch(k).late == {}
  }

  lemma {:induction false} FailedRows(owner: map<Id, Paper>, rows: map<Id, Row>, items: seq<Item>, lo: nat,
                                          hi: nat, w: Weather)
    requires lo <= hi <= |items| && w.batch(lo).Fails? && Attributed(owner, rows)
    requires ItemsOwned(owner, items)
    ensures Attributed(owner, AfterFailure(rows, items, lo, hi, w))
  {
    var after := AfterFailure(rows, items, lo, hi, w);
    forall id | id in after ensures ItemOwned(owner, Item(id, after[id])) {
      OtherRowsAreUntouched(rows, items, lo, hi, w, id);
      hide AfterFailure;
      if !(id in rows && after[id] == rows[id]) {
        var i :| 0 <= i < hi && items[..hi][i] == Item(id, after[id]);
        assert items[i] == Item(id, after[id]);
      }
    }
  }

  lemma {:induction false} PutAll(owner: map<Id, Paper>, rows: map<Id, Row>, items: seq<Item>)
    requires Attributed(owner, rows)
    requires ItemsOwned(owner, items)
    ensures Put(rows, items, All, 0, |items|).Keys == rows.Keys + Keys(items)
    ensures Attributed(owner, Put(rows, items, All, 0, |items|))
  {
    var after := Put(rows, items, All, 0, |items|);
    PutKeys(rows, items, All, 0, |items|);
    assert IdsOf(items, All, 0, |items|) == Keys(items);
    forall id | id in after ensures ItemOwned(owner, Item(id, after[id])) {
      PutRows(rows, items, All, 0, |items|, id);
      if !(id in rows && after[id] == rows[id]) {
        var i :| 0 <= i < |items| && items[0..|items|][i] == Item(id, after[id]);
        assert items[i] == Item(id, after[id]);
      }
    }
  }

  /** All items of a batch of papers, in order. */
  function AllItems(papers: seq<Prepared>, n: nat): seq<Item>
    requires n <= |papers|
  {
    if n == 0 then [] else AllItems(papers, n - 1) + papers[n - 1].items
  }

  ghost predicate AllOwned(owner: map<Id, Paper>, papers: seq<Prepared>) {
    && (forall i :: 0 <= i < |papers| ==> Owned(owner, papers[i]))
    && (forall i, j :: 0 <= i < j < |papers| ==> papers[i].paper != papers[j].paper)
  }

  lemma {:induction false} KeysAppend(a: seq<Item>, b: seq<Item>)
    ensures Keys(a + b) == Keys(a) + Keys(b)
  {
    forall id | id in Keys(b) ensures id in Keys(a + b) {
      var i :| 0 <= i < |b| && b[i].id == id;
      assert (a + b)[|a| + i].id == id;
    }
    forall id | id in Keys(a) ensures id in Keys(a + b) {
      var i :| 0 <= i < |a| && a[i].id == id;
      assert (a + b)[i].id == id;
    }
  }

  ghost predicate ItemsOwned(owner: map<Id, Paper>, items: seq<Item>) {
    forall i :: 0 <= i < |items| ==> ItemOwned(owner, items[i])
  }

  lemma {:induction false} ItemsAreOwned(owner: map<Id, Paper>, papers: seq<Prepared>, n: nat)
    requires AllOwned(owner, papers) && n <= |papers|
    ensures ItemsOwned(owner, AllItems(papers, n))
  {
    if n == 0 {
    } else {
      ItemsAreOwned(owner, papers, n - 1);
      assert Owned(owner, papers[n - 1]);
    }
  }

  /** What a batch brings each paper: its own ids to each of its papers, nothing to the others. */
  lemma {:induction false} BatchBrings(owner: map<Id, Paper>, papers: seq<Prepared>, n: nat, p: Paper)
    requires AllOwned(owner, papers) && n <= |papers|
    ensures forall i :: 0 <= i < n && papers[i].paper == p ==>
              Mine(owner, Keys(AllItems(papers, n)), p) == Keys(papers[i].items)
    ensures (forall i :: 0 <= i < n ==> papers[i].paper != p) ==> Mine(owner, Keys(AllItems(papers, n)), p) == {}
  {
    if n == 0 {
    } else {
      BatchBrings(owner, papers, n - 1, p);
      KeysAppend(AllItems(papers, n - 1), papers[n - 1].items);
      assert Owned(owner, papers[n - 1]);
      var own := Keys(papers[n - 1].items);
      assert Mine(owner, own, p) == if papers[n - 1].paper == p then own else {};
      MineSplits(owner, Keys(AllItems(papers, n - 1)), own, p);
    }
  }

  function IdSet(items: seq<Item>): (ids: set<Id>)
    ensures ids == Keys(items)
  {
    set i | 0 <= i < |items| :: items[i].id
  }

  ghost function Papers(papers: seq<Prepared>, n: nat): set<Paper>
    requires n <= |papers|
  {
    set i | 0 <= i < n :: papers[i].paper
  }

  lemma {:induction false} OneMorePaper(papers: seq<Prepared>, n: nat)
    requires n < |papers|
    ensures Papers(papers, n + 1) == Papers(papers, n) + {papers[n].paper}
  {
  }

  // ----- an ingest -----

  /** What can go wrong in an ingest. */
  datatype Trouble = Trouble(embeds: bool, cascade: Paper -> Cascade, weather: Weather, logs: Paper -> bool)

  function FateAt(t: Trouble, p: Paper): (f: Fate)
    ensures f.unlisted || f.dropped ==> f.gone
  {
    FateOf(t.cascade(p))
  }

  /** How far an ingest came: not past the embedding, everything landed, or a batch failed. */
  datatype How = NotReached | Landed | Failed(lo: nat, hi: nat)

  predicate Possible(papers: seq<Prepared>, t: Trouble, how: How) {
    && how.NotReached? == !t.embeds
    && (how.Failed? ==> how.lo <= how.hi <= |AllItems(papers, |papers|)| && t.weather.batch(how.lo).Fails?)
  }

  /** The stores once the old chunks of the first `n` papers were deleted, as far as that worked. */
  function AfterDeletes(w: World, papers: seq<Prepared>, t: Trouble, n: nat): World
    requires n <= |papers|
  {
    if n == 0 then w
    else Deleted(AfterDeletes(w, papers, t, n - 1), papers[n - 1].paper, FateAt(t, papers[n - 1].paper))
  }

  /** The log once the first `n` papers were recorded, as far as that worked. */
  function Recorded(log: map<Paper, set<Id>>, papers: seq<Prepared>, t: Trouble, n: nat): map<Paper, set<Id>>
    requires n <= |papers|
  {
    if n == 0 then log
    else if t.logs(papers[n - 1].paper) then
      Recorded(log, papers, t, n - 1)[papers[n - 1].paper := IdSet(papers[n - 1].items)]
    else Recorded(log, papers, t, n - 1)
  }

  /** Nothing is logged unless everything landed and the closing count worked. */
  predicate LogsAt(t: Trouble, p: Paper) {
    t.weather.countWorks && t.logs(p)
  }

  /** What an ingest leaves. */
  ghost function Ingested(w: World, papers: seq<Prepared>, t: Trouble, how: How): World
    requires Possible(papers, t, how)
  {
    var deleted := AfterDeletes(w, papers, t, |papers|);
    var items := AllItems(papers, |papers|);
    match how
    case NotReached => w
    case Landed =>
      World(Put(deleted.rows, items, All, 0, |items|), deleted.bm25,
            if t.weather.countWorks then Recorded(deleted.log, papers, t, |papers|) else deleted.log)
    case Failed(lo, hi) => deleted.(rows := AfterFailure(deleted.rows, items, lo, hi, t.weather))
  }

  // The same, seen from one paper.

  /**
   How the add ended for one paper.  A failed one may leave strays, ids that its rollback missed,
   and cost old ids that a rollback without a probe took.
   */
  datatype Ending = Logs | Unlogged | Broken(strays: set<Id>, lost: set<Id>)

  ghost function EndingAt(owner: map<Id, Paper>, papers: seq<Prepared>, t: Trouble, how: How, p: Paper): Ending
    requires Possible(papers, t, how)
  {
    var items := AllItems(papers, |papers|);
    if how.Failed? then
      Broken(Mine(owner, Strays(items, how.lo, how.hi, t.weather), p),
             Mine(owner, Lost(items, how.lo, how.hi, t.weather), p))
    else if LogsAt(t, p) then Logs
    else Unlogged
  }

  function AfterAdd(v: View, brought: set<Id>, e: Ending): View {
    match e
    case Logs => View(v.rows + brought, v.served, brought)
    case Unlogged => View(v.rows + brought, v.served, v.logged)
    case Broken(strays, lost) => View(v.rows - lost + strays, v.served, v.logged)
  }

  lemma {:induction false} AfterDeletesView(owner: map<Id, Paper>, w: World, papers: seq<Prepared>, t: Trouble, n: nat,
                                            q: Paper)
    requires Sane(owner, w) && AllOwned(owner, papers) && n <= |papers|
    ensures Sane(owner, AfterDeletes(w, papers, t, n))
    ensures ViewOf(owner, AfterDeletes(w, papers, t, n), q) ==
            if q in Papers(papers, n) then AfterDelete(ViewOf(owner, w, q), FateAt(t, q)) else ViewOf(owner, w, q)
  {
    if n == 0 {
    } else {
      var p := papers[n - 1].paper;
      AfterDeletesView(owner, w, papers, t, n - 1, q);
      DeletedView(owner, AfterDeletes(w, papers, t, n - 1), p, FateAt(t, p), q);
      OneMorePaper(papers, n - 1);
      assert p !in Papers(papers, n - 1);
      hide Sane, ViewOf, Deleted, Papers, FateAt, AfterDelete;
    }
  }

  lemma {:induction false} AfterDeletesIsSane(owner: map<Id, Paper>, w: World, papers: seq<Prepared>, t: Trouble,
                                              n: nat)
    requires Sane(owner, w) && n <= |papers|
    ensures Sane(owner, AfterDeletes(w, papers, t, n))
  {
    if n == 0 {
    } else {
      var p := papers[n - 1].paper;
      AfterDeletesIsSane(owner, w, papers, t, n - 1);
      DeletedView(owner, AfterDeletes(w, papers, t, n - 1), p, FateAt(t, p), p);
    }
  }

  lemma {:induction false} RecordedLooksUp(log: map<Paper, set<Id>>, papers: seq<Prepared>, t: Trouble, n: nat, i: nat)
    requires n <= |papers| && i < n && forall j, k :: 0 <= j < k < |papers| ==> papers[j].paper != papers[k].paper
    ensures var p := papers[i].paper;
            Logged(Recorded(log, papers, t, n), p) == if t.logs(p) then Keys(papers[i].items) else Logged(log, p)
  {
    if i < n - 1 {
      RecordedLooksUp(log, papers, t, n - 1, i);
    } else {
      RecordedStays(log, papers, t, n - 1, papers[i].paper);
    }
  }

  lemma {:induction false} RecordedStays(log: map<Paper, set<Id>>, papers: seq<Prepared>, t: Trouble, n: nat, q: Paper)
    requires n <= |papers| && q !in Papers(papers, n)
    ensures Logged(Recorded(log, papers, t, n), q) == Logged(log, q)
  {
    if n == 0 {
    } else {
      OneMorePaper(papers, n - 1);
      RecordedStays(log, papers, t, n - 1, q);
    }
  }

  lemma {:induction false} RecordedIsNonempty(owner: map<Id, Paper>, log: map<Paper, set<Id>>, papers: seq<Prepared>,
                                              t: Trouble, n: nat)
    requires n <= |papers| && AllOwned(owner, papers) && forall p :: p in log ==> log[p] != {}
    ensures forall p :: p in Recorded(log, papers, t, n) ==> Recorded(log, papers, t, n)[p] != {}
  {
    if n == 0 {
    } else {
      RecordedIsNonempty(owner, log, papers, t, n - 1);
      assert Owned(owner, papers[n - 1]);
      assert papers[n - 1].items[0].id in Keys(papers[n - 1].items);
    }
  }

  lemma {:induction false} IngestedIsSane(owner: map<Id, Paper>, w: World, papers: seq<Prepared>, t: Trouble, how: How)
    requires Sane(owner, w) && AllOwned(owner, papers) && Possible(papers, t, how)
    ensures Sane(owner, Ingested(w, papers, t, how))
  {
    var n, items := |papers|, AllItems(papers, |papers|);
    var deleted := AfterDeletes(w, papers, t, n);
    AfterDeletesIsSane(owner, w, papers, t, n);
    ItemsAreOwned(owner, papers, n);
    RecordedIsNonempty(owner, deleted.log, papers, t, n);
    hide AfterDeletes, AllItems, Recorded, Attributed, Put, AfterFailure, Owned;
    match how
    case NotReached =>
    case Landed => PutAll(owner, deleted.rows, items);
    case Failed(lo, hi) => FailedRows(owner, deleted.rows, items, lo, hi, t.weather);
  }

  lemma {:induction false} IngestedView(owner: map<Id, Paper>, w: World, papers: seq<Prepared>, t: Trouble, how: How,
                                        i: nat)
    requires Sane(owner, w) && AllOwned(owner, papers) && Possible(papers, t, how) && t.embeds && i < |papers|
    ensures var p, brought := papers[i].paper, Keys(papers[i].items);
            ViewOf(owner, Ingested(w, papers, t, how), p) ==
            AfterAdd(AfterDelete(ViewOf(owner, w, p), FateAt(t, p)), brought, EndingAt(owner, papers, t, how, p))
  {
    var n, items, p := |papers|, AllItems(papers, |papers|), papers[i].paper;
    var deleted := AfterDeletes(w, papers, t, n);
    assert p in Papers(papers, n);
    AfterDeletesView(owner, w, papers, t, n, p);
    RecordedLooksUp(deleted.log, papers, t, n, i);
    ItemsAreOwned(owner, papers, n);
    BatchBrings(owner, papers, n, p);
    PutAll(owner, deleted.rows, items);
    MineSplits(owner, deleted.rows.Keys, Keys(items), p);
    if how.Failed? {
      FailedMine(owner, deleted.rows, items, how.lo, how.hi, t.weather, p);
    }
    hide AfterDeletes, AllItems, Recorded, Attributed, Put, AfterFailure, Owned, AllOwned, Mine, Keys, AfterDelete,
         Sane, Papers, FateAt, Strays, Lost;
  }

  /**
   An ingest whose add lands, in the fields of its environment: the old rows go unless their delete
   failed, the old ids are served until the cascade takes them, and the log names the new ids unless
   the count or the log write failed.
   */
  lemma {:induction false} WhatAnIngestLeaves(owner: map<Id, Paper>, w: World, papers: seq<Prepared>, t: Trouble,
                                              i: nat)
    requires Sane(owner, w) && AllOwned(owner, papers) && t.embeds && i < |papers|
    ensures var p, brought, c := papers[i].paper, Keys(papers[i].items), t.cascade(papers[i].paper);
            var before, after := ViewOf(owner, w, p), ViewOf(owner, Ingested(w, papers, t, Landed), p);
            var gone := c.lookupWorks && (c.delete == Done || c.delete.anyway);
            var cascades := c.lookupWorks && c.delete == Done && before.rows != {};
            var (a, b), (m, n) := (c.bm25.first, c.bm25.second), (c.log.first, c.log.second);
            var unlisted := a == Done || a.anyway || b == Done || b.anyway;
            var dropped := m == Done || m.anyway || n == Done || n.anyway;
            && after.rows == (if gone then brought else before.rows + brought)
            && after.served == (if cascades && unlisted then before.served - before.rows else before.served)
            && after.logged == if t.weather.countWorks && t.logs(p) then brought
                               else if cascades && dropped then {} else before.logged
  {
    IngestedView(owner, w, papers, t, Landed, i);
    hide Ingested, ViewOf, Mine, Keys, Owned, AllOwned, Sane;
  }

  /** A landed item is stored as it is, unless the paper brings its id again. */
  lemma {:induction false} WhatIsStored(owner: map<Id, Paper>, w: World, papers: seq<Prepared>, t: Trouble, i: nat,
                                        k: nat)
    requires AllOwned(owner, papers) && t.embeds && i < |papers| && k < |papers[i].items|
    requires forall j :: k < j < |papers[i].items| ==> papers[i].items[j].id != papers[i].items[k].id
    ensures var item, rows := papers[i].items[k], Ingested(w, papers, t, Landed).rows;
            item.id in rows && rows[item.id] == item.row
  {
    var n, items := |papers|, AllItems(papers, |papers|);
    var at := ItemIsAdded(owner, papers, n, i, k);
    hide AllItems, AllOwned, AfterDeletes;
    LastLandedWins(AfterDeletes(w, papers, t, n).rows, items, All, 0, |items|, at);
  }

  lemma {:induction false} ItemIsAdded(owner: map<Id, Paper>, papers: seq<Prepared>, n: nat, i: nat, k: nat)
    returns (at: nat)
    requires AllOwned(owner, papers) && i < n <= |papers| && k < |papers[i].items|
    requires forall j :: k < j < |papers[i].items| ==> papers[i].items[j].id != papers[i].items[k].id
    ensures var items := AllItems(papers, n);
            && at < |items| && items[at] == papers[i].items[k]
            && forall j :: at < j < |items| ==> items[j].id != items[at].id
  {
    var before, last := AllItems(papers, n - 1), papers[n - 1].items;
    assert Owned(owner, papers[n - 1]) && Owned(owner, papers[i]);
    if i == n - 1 {
      at := |before| + k;
    } else {
      at := ItemIsAdded(owner, papers, n - 1, i, k);
      forall j | 0 <= j < |last| ensures last[j].id != papers[i].items[k].id {
        assert ItemOwned(owner, last[j]) && ItemOwned(owner, papers[i].items[k]);
      }
      hide AllOwned, Owned;
    }
  }

  /** What a failed add leaves of one paper. */
  lemma {:induction false} FailedMine(owner: map<Id, Paper>, rows: map<Id, Row>, items: seq<Item>, lo: nat, hi: nat,
                                      w: Weather, p: Paper)
    requires lo <= hi <= |items| && w.batch(lo).Fails?
    ensures Mine(owner, AfterFailure(rows, items, lo, hi, w).Keys, p) ==
            Mine(owner, rows.Keys, p) - Mine(owner, Lost(items, lo, hi, w), p)
            + Mine(owner, Strays(items, lo, hi, w), p)
  {
    FailedAddLeaves(rows, items, lo, hi, w);
    hide AfterFailure, Lost, Strays;
  }

  lemma {:induction false} OtherViewsStay(owner: map<Id, Paper>, w: World, papers: seq<Prepared>, t: Trouble,
                                          how: How, q: Paper)
    requires Sane(owner, w) && AllOwned(owner, papers) && Possible(papers, t, how) && q !in Papers(papers, |papers|)
    ensures ViewOf(owner, Ingested(w, papers, t, how), q) == ViewOf(owner, w, q)
  {
    var n, items := |papers|, AllItems(papers, |papers|);
    var deleted := AfterDeletes(w, papers, t, n);
    AfterDeletesView(owner, w, papers, t, n, q);
    RecordedStays(deleted.log, papers, t, n, q);
    ItemsAreOwned(owner, papers, n);
    assert Mine(owner, Keys(items), q) == {} by {
      BatchBrings(owner, papers, n, q);
      assert forall j :: 0 <= j < n ==> papers[j].paper in Papers(papers, n);
    }
    PutAll(owner, deleted.rows, items);
    MineSplits(owner, deleted.rows.Keys, Keys(items), q);
    if how.Failed? {
      FailedKeys(owner, deleted.rows, items, how.lo, how.hi, t.weather, q);
    }
    hide AfterDeletes, AllItems, Recorded, Attributed, Put, AfterFailure, Owned, AllOwned, Mine, Keys, Sane, Papers;
  }

  /** A failed add leaves the ids of other papers alone. */
  lemma {:induction false} FailedKeys(owner: map<Id, Paper>, rows: map<Id, Row>, items: seq<Item>, lo: nat, hi: nat,
                                      w: Weather, q: Paper)
    requires lo <= hi <= |items| && w.batch(lo).Fails? && Mine(owner, Keys(items), q) == {}
    ensures Mine(owner, AfterFailure(rows, items, lo, hi, w).Keys, q) == Mine(owner, rows.Keys, q)
  {
    var after := AfterFailure(rows, items, lo, hi, w);
    assert IdsOf(items, All, 0, hi) <= Keys(items);
    forall id | id in owner && owner[id] == q ensures id in after <==> id in rows {
      assert id in Keys(items) ==> id in Mine(owner, Keys(items), q);
      OtherRowsAreUntouched(rows, items, lo, hi, w, id);
    }
    hide AfterFailure;
  }

  // ----- exactly which ingests keep the stores in step -----

  /**
   The condition on one paper: `before` and `served` are what the stores had of it, `brought` what it
   brings.  Logged: the old rows are gone or overwritten.  Not logged: the log row is still there
   and right.  And nothing is served that is not there.
   */
  predicate IngestKeeps(before: set<Id>, served: set<Id>, brought: set<Id>, f: Fate, e: Ending) {
    match e
    case Logs => (f.gone || before <= brought) && (f.gone && !f.unlisted ==> served <= brought)
    case Unlogged =>
      !f.dropped && (if f.gone then before == brought else brought <= before) &&
      (f.gone && !f.unlisted ==> served <= brought)
    case Broken(strays, lost) => FailureKeeps(before, served, f, strays, lost)
  }

  /**
   The condition for a failed add.  With the log row dropped, nothing may stray and nothing of the
   paper be served; with the rows gone but logged, just they must have strayed back; with the old
   rows in place, only old ids may stray and none of them be lost.
   */
  predicate FailureKeeps(before: set<Id>, served: set<Id>, f: Fate, strays: set<Id>, lost: set<Id>) {
    if f.dropped then strays == {} && (f.unlisted || served == {})
    else if f.gone then strays == before
    else strays <= before && lost !! before
  }

  lemma {:induction false} IngestKeepsView(v: View, brought: set<Id>, f: Fate, e: Ending)
    requires Agrees(v) && brought != {} && (f.unlisted || f.dropped ==> f.gone)
    requires e.Broken? ==> e.strays !! e.lost
    ensures Agrees(AfterAdd(AfterDelete(v, f), brought, e)) <==> IngestKeeps(v.rows, v.served, brought, f, e)
  {
    if e.Broken? {
      assert forall id :: id in e.lost ==> id !in v.rows - e.lost + e.strays;
    }
  }

  ghost predicate PaperKeeps(owner: map<Id, Paper>, w: World, papers: seq<Prepared>, t: Trouble, how: How, i: nat)
    requires Possible(papers, t, how) && i < |papers|
  {
    var p, v := papers[i].paper, ViewOf(owner, w, papers[i].paper);
    IngestKeeps(v.rows, v.served, Keys(papers[i].items), FateAt(t, p), EndingAt(owner, papers, t, how, p))
  }

  /** Exactly when an ingest keeps the stores in step, whatever fails in it. */
  lemma {:induction false} IngestKeepsExactly(owner: map<Id, Paper>, w: World, papers: seq<Prepared>, t: Trouble,
                                              how: How)
    requires InStep(owner, w) && AllOwned(owner, papers) && Possible(papers, t, how)
    ensures InStep(owner, Ingested(w, papers, t, how)) <==>
            !t.embeds || forall i :: 0 <= i < |papers| ==> PaperKeeps(owner, w, papers, t, how, i)
  {
    var w2 := Ingested(w, papers, t, how);
    if t.embeds {
      IngestedIsSane(owner, w, papers, t, how);
      forall i | 0 <= i < |papers|
        ensures Agrees(ViewOf(owner, w2, papers[i].paper)) <==> PaperKeeps(owner, w, papers, t, how, i)
      {
        PaperKeepsView(owner, w, papers, t, how, i);
      }
      forall q | q !in Papers(papers, |papers|) ensures Agrees(ViewOf(owner, w2, q)) {
        assert Agrees(ViewOf(owner, w, q));
        OtherViewsStay(owner, w, papers, t, how, q);
      }
      hide PaperKeeps, Agrees, ViewOf, Ingested, Possible, Sane, AllOwned;
    }
  }

  lemma {:induction false} PaperKeepsView(owner: map<Id, Paper>, w: World, papers: seq<Prepared>, t: Trouble,
                                          how: How, i: nat)
    requires InStep(owner, w) && AllOwned(owner, papers) && Possible(papers, t, how) && t.embeds && i < |papers|
    ensures Agrees(ViewOf(owner, Ingested(w, papers, t, how), papers[i].paper)) <==>
            PaperKeeps(owner, w, papers, t, how, i)
  {
    var p := papers[i].paper;
    assert Agrees(ViewOf(owner, w, p));
    assert Owned(owner, papers[i]);
    assert papers[i].items[0].id in Keys(papers[i].items);
    IngestedView(owner, w, papers, t, how, i);
    EndingIsSplit(owner, papers, t, how, p);
    hide Ingested, Possible, EndingAt, FateAt, InStep, AllOwned, Owned, Mine;
    IngestKeepsView(ViewOf(owner, w, p), Keys(papers[i].items), FateAt(t, p), EndingAt(owner, papers, t, how, p));
  }

  lemma {:induction false} EndingIsSplit(owner: map<Id, Paper>, papers: seq<Prepared>, t: Trouble, how: How, p: Paper)
    requires Possible(papers, t, how)
    ensures var e := EndingAt(owner, papers, t, how, p); e.Broken? ==> e.strays !! e.lost
  {
  }

  /** How an add fails for one paper, by what its rollback does and whether its probe worked. */
  lemma {:induction false} HowAddsFail(owner: map<Id, Paper>, papers: seq<Prepared>, t: Trouble, how: How, p: Paper)
    requires Possible(papers, t, how) && how.Failed?
    ensures var items, e := AllItems(papers, |papers|), EndingAt(owner, papers, t, how, p);
            var late := Mine(owner, Late(items, how.lo, how.hi, t.weather), p);
            var tried := Mine(owner, IdsOf(items, All, 0, how.hi), p);
            var inTime := Mine(owner, InTime(items, how.lo, how.hi, t.weather), p);
            && e.strays == (if t.weather.rollback.Deletes? then late else (inTime - t.weather.rollback.deleted) + late)
            && e.lost == (if t.weather.probeWorks then {}
                          else if t.weather.rollback.Deletes? then tried - late
                          else (tried * t.weather.rollback.deleted) - late)
  {
    var items := AllItems(papers, |papers|);
    IdsAreAttempted(items, Only(t.weather.batch(how.lo).landed), how.lo, how.hi);
    hide AllItems, IdsOf;
  }

  /** A failed add that is rolled back: row and log entry of each paper went together, and what was served of it too. */
  lemma {:induction false} RolledBackKeeps(owner: map<Id, Paper>, w: World, papers: seq<Prepared>, t: Trouble,
                                           how: How, i: nat)
    requires InStep(owner, w) && Possible(papers, t, how) && i < |papers|
    requires how.Failed? && RollsBack(t.weather)
    ensures PaperKeeps(owner, w, papers, t, how, i) <==>
            DeleteKeeps(ViewOf(owner, w, papers[i].paper), FateAt(t, papers[i].paper))
  {
    var p := papers[i].paper;
    assert Agrees(ViewOf(owner, w, p));
    HowAddsFail(owner, papers, t, how, p);
    assert Late(AllItems(papers, |papers|), how.lo, how.hi, t.weather) == {};
    hide EndingAt, AllItems, Late, Mine, InStep;
  }

  /**
   An upsert that times out and lands after the rollback, which the probe and the rollback cannot
   help: in step exactly when, of each paper, what lands late is what `FailureKeeps` says.
   */
  lemma {:induction false} LateRowsDiverge(owner: map<Id, Paper>, w: World, papers: seq<Prepared>, t: Trouble, how: How)
    requires InStep(owner, w) && AllOwned(owner, papers) && Possible(papers, t, how) && how.Failed?
    requires t.weather.probeWorks && t.weather.rollback.Deletes?
    ensures var late := Late(AllItems(papers, |papers|), how.lo, how.hi, t.weather);
            InStep(owner, Ingested(w, papers, t, how)) <==>
            forall i :: 0 <= i < |papers| ==> KeepsAfterFailure(owner, w, papers, t, i, late, {})
  {
    IngestKeepsExactly(owner, w, papers, t, how);
    forall i | 0 <= i < |papers|
      ensures PaperKeeps(owner, w, papers, t, how, i) <==>
              KeepsAfterFailure(owner, w, papers, t, i, Late(AllItems(papers, |papers|), how.lo, how.hi, t.weather), {})
    {
      HowAddsFail(owner, papers, t, how, papers[i].paper);
      assert Mine(owner, {}, papers[i].paper) == {};
      hide EndingAt, AllItems, Late, InStep, FailureKeeps;
    }
    hide PaperKeeps, KeepsAfterFailure, Ingested, InStep, AllOwned, AllItems, Late;
  }

  /** `FailureKeeps` for the i-th paper of a batch, given the strays and the lost ids of the whole call. */
  ghost predicate KeepsAfterFailure(owner: map<Id, Paper>, w: World, papers: seq<Prepared>, t: Trouble, i: nat,
                                    strays: set<Id>, lost: set<Id>)
    requires i < |papers|
  {
    var p, v := papers[i].paper, ViewOf(owner, w, papers[i].paper);
    FailureKeeps(v.rows, v.served, FateAt(t, p), Mine(owner, strays, p), Mine(owner, lost, p))
  }

  /** Without a probe a working rollback takes the old ids too, unless they land again. */
  lemma {:induction false} BlindRollbackDiverges(owner: map<Id, Paper>, w: World, papers: seq<Prepared>, t: Trouble,
                                                 how: How)
    requires InStep(owner, w) && AllOwned(owner, papers) && Possible(papers, t, how) && how.Failed?
    requires !t.weather.probeWorks && t.weather.rollback.Deletes?
    ensures var items := AllItems(papers, |papers|);
            var late, tried := Late(items, how.lo, how.hi, t.weather), IdsOf(items, All, 0, how.hi);
            InStep(owner, Ingested(w, papers, t, how)) <==>
            forall i :: 0 <= i < |papers| ==> KeepsAfterFailure(owner, w, papers, t, i, late, tried - late)
  {
    var items := AllItems(papers, |papers|);
    var late, tried := Late(items, how.lo, how.hi, t.weather), IdsOf(items, All, 0, how.hi);
    IngestKeepsExactly(owner, w, papers, t, how);
    forall i | 0 <= i < |papers|
      ensures PaperKeeps(owner, w, papers, t, how, i) <==> KeepsAfterFailure(owner, w, papers, t, i, late, tried - late)
    {
      HowAddsFail(owner, papers, t, how, papers[i].paper);
      assert Mine(owner, tried - late, papers[i].paper) ==
             Mine(owner, tried, papers[i].paper) - Mine(owner, late, papers[i].paper);
      hide EndingAt, AllItems, Late, IdsOf, InStep, FailureKeeps;
    }
    hide PaperKeeps, KeepsAfterFailure, Ingested, InStep, AllOwned, AllItems, Late, IdsOf;
  }

  /** A rollback that breaks leaves what it did not delete. */
  lemma {:induction false} BrokenRollbackDiverges(owner: map<Id, Paper>, w: World, papers: seq<Prepared>, t: Trouble,
                                                  how: How)
    requires InStep(owner, w) && AllOwned(owner, papers) && Possible(papers, t, how) && how.Failed?
    requires t.weather.probeWorks && t.weather.rollback.Breaks?
    ensures var items := AllItems(papers, |papers|);
            var strays := (InTime(items, how.lo, how.hi, t.weather) - t.weather.rollback.deleted)
                          + Late(items, how.lo, how.hi, t.weather);
            InStep(owner, Ingested(w, papers, t, how)) <==>
            forall i :: 0 <= i < |papers| ==> KeepsAfterFailure(owner, w, papers, t, i, strays, {})
  {
    var items := AllItems(papers, |papers|);
    var inTime, late := InTime(items, how.lo, how.hi, t.weather), Late(items, how.lo, how.hi, t.weather);
    var strays := (inTime - t.weather.rollback.deleted) + late;
    IngestKeepsExactly(owner, w, papers, t, how);
    forall i | 0 <= i < |papers|
      ensures PaperKeeps(owner, w, papers, t, how, i) <==> KeepsAfterFailure(owner, w, papers, t, i, strays, {})
    {
      var p := papers[i].paper;
      HowAddsFail(owner, papers, t, how, p);
      assert Mine(owner, {}, p) == {};
      assert Mine(owner, strays, p) == (Mine(owner, inTime, p) - t.weather.rollback.deleted) + Mine(owner, late, p);
      hide EndingAt, AllItems, InTime, Late, InStep, FailureKeeps;
    }
    hide PaperKeeps, KeepsAfterFailure, Ingested, InStep, AllOwned, AllItems, InTime, Late;
  }

  lemma {:induction false} OneChunk(p: Paper, a: Id, text: Text)
    ensures var item := Item(a, Row(Some(p), text));
            AllItems([Prepared(p, [item])], 1) == [item] && AllOwned(map[a := p], [Prepared(p, [item])])
  {
    assert AllItems([Prepared(p, [Item(a, Row(Some(p), text))])], 0) == [];
    assert Owned(map[a := p], Prepared(p, [Item(a, Row(Some(p), text))]));
  }

  /**
   The smallest failed adds that leave a stray: a first chunk lands after its rollback, or had
   landed when a rollback broke before deleting it.  It stays, and no log row names it.
   */
  lemma {:induction false} StrayChunkWitness(p: Paper, a: Id, text: Text, t: Trouble)
    requires t.embeds && t.weather.probeWorks && t.weather.batch(0).Fails?
    requires || (t.weather.rollback.Deletes? && 0 in t.weather.batch(0).late)
             || (t.weather.rollback == Breaks({}) && 0 in t.weather.batch(0).landed)
    ensures var item, none := Item(a, Row(Some(p), text)), World(map[], None, map[]);
            var papers, owner, how := [Prepared(p, [item])], map[a := p], Failed(0, 1);
            && InStep(owner, none) && AllOwned(owner, papers) && Possible(papers, t, how)
            && Ingested(none, papers, t, how) == World(map[a := item.row], None, map[])
            && !InStep(owner, Ingested(none, papers, t, how))
  {
    var item, none := Item(a, Row(Some(p), text)), World(map[], None, map[]);
    var papers, owner := [Prepared(p, [item])], map[a := p];
    OneChunk(p, a, text);
    assert AfterDeletes(none, papers, t, 0) == none && AfterDeletes(none, papers, t, 1) == none;
    OneRowFails(none.rows, item, t.weather);
    assert AfterFailure(none.rows, [item], 0, 1, t.weather) == map[a := item.row];
    var left := World(map[a := item.row], None, map[]);
    assert a in Mine(owner, left.rows.Keys, p);
    assert !Agrees(ViewOf(owner, left, p));
  }

  /**
   The smallest add whose rollback costs old rows: the delete of the old version does not get
   through, nor does the probe, and the working rollback of the same chunk takes it away.
   */
  lemma {:induction false} BlindRollbackWitness(p: Paper, a: Id, text: Text, t: Trouble)
    requires t.embeds && !FateAt(t, p).gone && !t.weather.probeWorks && t.weather.rollback.Deletes?
    requires t.weather.batch(0).Fails? && 0 !in t.weather.batch(0).late
    ensures var item := Item(a, Row(Some(p), text));
            var papers, owner, how := [Prepared(p, [item])], map[a := p], Failed(0, 1);
            var w := World(map[a := item.row], None, map[p := {a}]);
            && InStep(owner, w) && AllOwned(owner, papers) && Possible(papers, t, how)
            && Ingested(w, papers, t, how) == w.(rows := map[]) && !InStep(owner, Ingested(w, papers, t, how))
  {
    var item := Item(a, Row(Some(p), text));
    var papers, owner, w := [Prepared(p, [item])], map[a := p], World(map[a := item.row], None, map[p := {a}]);
    OneChunk(p, a, text);
    assert AfterDeletes(w, papers, t, 0) == w;
    assert AfterDeletes(w, papers, t, 1) == w;
    OneRowFails(w.rows, item, t.weather);
    forall q ensures Agrees(ViewOf(owner, w, q)) {
      assert Mine(owner, {a}, q) == if q == p then {a} else {};
    }
    assert !Agrees(ViewOf(owner, w.(rows := map[]), p));
  }

  /** A call with one row that fails, spelled out. */
  lemma {:induction false} OneRowFails(rows: map<Id, Row>, item: Item, w: Weather)
    requires w.batch(0).Fails?
    ensures var landed := if 0 in w.batch(0).landed then rows[item.id := item.row] else rows;
            var left := landed - Removed(rows, [item], 1, w);
            AfterFailure(rows, [item], 0, 1, w) == if 0 in w.batch(0).late then left[item.id := item.row] else left
    ensures IdsOf([item], All, 0, 1) == {item.id}
  {
    var only, late := Only(w.batch(0).landed), Only(w.batch(0).late);
    assert Put(rows, [item], All, 0, 0) == rows;
    assert Put(rows, [item], only, 0, 0) == rows;
    assert [item][0].id in IdsOf([item], All, 0, 1);
  }

  /**
   Deletions that fail and are only logged: once everything is added and recorded, the stores are
   in step exactly when every paper's new version has every old id.
   */
  lemma {:induction false} SwallowedDeletesDiverge(owner: map<Id, Paper>, w: World, papers: seq<Prepared>, t: Trouble)
    requires InStep(owner, w) && AllOwned(owner, papers) && t.embeds
    requires forall i :: 0 <= i < |papers| ==> LogsAt(t, papers[i].paper) && !FateAt(t, papers[i].paper).gone
    ensures InStep(owner, Ingested(w, papers, t, Landed)) <==>
            forall i :: 0 <= i < |papers| ==> Logged(w.log, papers[i].paper) <= Keys(papers[i].items)
  {
    IngestKeepsExactly(owner, w, papers, t, Landed);
    forall i | 0 <= i < |papers|
      ensures PaperKeeps(owner, w, papers, t, Landed, i) <==> Logged(w.log, papers[i].paper) <= Keys(papers[i].items)
    {
      assert Agrees(ViewOf(owner, w, papers[i].paper));
    }
    hide PaperKeeps, Ingested, InStep, AllOwned, FateAt, LogsAt;
  }

  /**
   Deletions that raise but land, as those that time out do: the log is right again after the
   ingest, but the lexical index still serves the old ids.  In step exactly when it had none that
   the new versions lack.
   */
  lemma {:induction false} LandedDeletesServeStaleIds(owner: map<Id, Paper>, w: World, papers: seq<Prepared>,
                                                      t: Trouble)
    requires InStep(owner, w) && AllOwned(owner, papers) && t.embeds
    requires forall i :: 0 <= i < |papers| ==>
               LogsAt(t, papers[i].paper) && FateAt(t, papers[i].paper) == Fate(true, false, false)
    ensures InStep(owner, Ingested(w, papers, t, Landed)) <==>
            forall i :: 0 <= i < |papers| ==> Mine(owner, Served(w), papers[i].paper) <= Keys(papers[i].items)
  {
    IngestKeepsExactly(owner, w, papers, t, Landed);
    forall i | 0 <= i < |papers|
      ensures PaperKeeps(owner, w, papers, t, Landed, i) <==>
              Mine(owner, Served(w), papers[i].paper) <= Keys(papers[i].items)
    {
      assert Agrees(ViewOf(owner, w, papers[i].paper));
    }
    hide PaperKeeps, Ingested, InStep, AllOwned, FateAt, LogsAt;
  }

  /** The smallest run that a swallowed delete takes out of step: one chunk replaced by another. */
  lemma {:induction false} SwallowedDeleteWitness(p: Paper, a: Id, b: Id, text: Text, t: Trouble, anyway: bool)
    requires a != b && t.embeds && LogsAt(t, p)
    requires t.cascade(p).lookupWorks && t.cascade(p).delete == Raised(anyway)
    ensures var w := World(map[a := Row(Some(p), text)], Some({a}), map[p := {a}]);
            var papers := [Prepared(p, [Item(b, Row(Some(p), text))])];
            var owner := map[a := p, b := p];
            && InStep(owner, w) && AllOwned(owner, papers) && !InStep(owner, Ingested(w, papers, t, Landed))
  {
    var w := World(map[a := Row(Some(p), text)], Some({a}), map[p := {a}]);
    var papers := [Prepared(p, [Item(b, Row(Some(p), text))])];
    var owner := map[a := p, b := p];
    forall q ensures Agrees(ViewOf(owner, w, q)) {
      assert Mine(owner, {a}, q) == if q == p then {a} else {};
    }
    assert Owned(owner, papers[0]);
    assert ViewOf(owner, w, p) == View({a}, {a}, {a});
    assert papers[0].items[0].id == b;
    assert Keys(papers[0].items) == {b};
    IngestKeepsExactly(owner, w, papers, t, Landed);
    assert !PaperKeeps(owner, w, papers, t, Landed, 0);
  }

  // ----- the code -----

  lemma {:induction false} DeletesShrink(w: World, papers: seq<Prepared>, t: Trouble, n: nat, p: Paper)
    requires n <= |papers|
    ensures PaperIds(AfterDeletes(w, papers, t, n).rows, p) <= PaperIds(w.rows, p)
  {
    if n == 0 {
    } else {
      DeletesShrink(w, papers, t, n - 1, p);
    }
  }

  /** `needs_deletion` of `_build_paper_chunks`: the collection already holds rows of the paper. */
  method NeedDeletion(ghost owner: map<Id, Paper>, s: Stores, papers: seq<Prepared>) returns (needs: seq<bool>)
    ensures |needs| == |papers|
    ensures forall i :: 0 <= i < |papers| ==> (needs[i] <==> PaperIds(s.rows, papers[i].paper) != {})
    ensures InStep(owner, WorldOf(s)) ==> forall i :: 0 <= i < |papers| ==> (needs[i] <==> papers[i].paper in s.log)
  {
    needs := [];
    for n := 0 to |papers|
      invariant |needs| == n
      invariant forall i :: 0 <= i < n ==> (needs[i] <==> PaperIds(s.rows, papers[i].paper) != {})
    {
      needs := needs + [PaperIds(s.rows, papers[n].paper) != {}];
    }
    if InStep(owner, WorldOf(s)) {
      InStepMeans(owner, WorldOf(s));
    }
  }

  /**
   The tail of `ingest_directory`: embed, delete what the changed papers had, add everything in
   one call, then log every paper.
   */
  method IngestDirectory(s: Stores, papers: seq<Prepared>, upsertBatch: int, t: Trouble)
    returns (ok: bool, ghost how: How)
    modifies s
    ensures Possible(papers, t, how) && WorldOf(s) == Ingested(old(WorldOf(s)), papers, t, how)
    ensures ok == (how.Landed? && t.weather.countWorks)
    ensures how.Landed? ==> BatchesWork(t.weather, BatchSize(upsertBatch), |AllItems(papers, |papers|)|)
  {
    hide AllItems, PaperIds, Put, AfterFailure, FateOf;
    ghost var w := WorldOf(s);
    var needsDeletion := NeedDeletion(map[], s, papers);
    if !t.embeds {
      return false, NotReached;
    }
    for i := 0 to |papers|
      invariant WorldOf(s) == AfterDeletes(w, papers, t, i)
      invariant forall j :: 0 <= j < |papers| ==> (needsDeletion[j] <==> PaperIds(w.rows, papers[j].paper) != {})
    {
      DeletesShrink(w, papers, t, i, papers[i].paper);
      if needsDeletion[i] {
        var _ := Delete(s, papers[i].paper, t.cascade(papers[i].paper));
      }
    }
    ghost var deleted := WorldOf(s);
    var added, landed, lo, hi := s.AddDocuments(AllItems(papers, |papers|), upsertBatch, t.weather);
    how := if landed then Landed else Failed(lo, hi);
    if !added {
      return false, how;
    }
    for i := 0 to |papers|
      invariant WorldOf(s) == deleted.(rows := s.rows, log := Recorded(deleted.log, papers, t, i))
      invariant s.rows == Put(deleted.rows, AllItems(papers, |papers|), All, 0, |AllItems(papers, |papers|)|)
    {
      if t.logs(papers[i].paper) {
        s.log := s.log[papers[i].paper := IdSet(papers[i].items)];
      }
    }
    return true, how;
  }

  lemma {:induction false} OfOne(w: World, prepared: Prepared, t: Trouble)
    ensures AllItems([prepared], 1) == prepared.items
    ensures AfterDeletes(w, [prepared], t, 1) == Deleted(w, prepared.paper, FateAt(t, prepared.paper))
    ensures Recorded(w.log, [prepared], t, 1) ==
            if t.logs(prepared.paper) then w.log[prepared.paper := IdSet(prepared.items)] else w.log
  {
    assert AllItems([prepared], 0) == [];
    assert AfterDeletes(w, [prepared], t, 0) == w;
    assert Recorded(w.log, [prepared], t, 0) == w.log;
  }

  /**
   `ingest_paper`: nothing to do if the paper is skipped; otherwise it does to the stores what the
   bulk path does to a batch of one, and returns how many chunks it added, or raises.
   */
  method IngestPaper(s: Stores, paper: Option<Prepared>, upsertBatch: int, t: Trouble)
    returns (chunks: Option<nat>, ghost how: How)
    modifies s
    ensures paper.None? ==> chunks == Some(0) && WorldOf(s) == old(WorldOf(s))
    ensures paper.Some? ==>
              && Possible([paper.value], t, how) && WorldOf(s) == Ingested(old(WorldOf(s)), [paper.value], t, how)
              && chunks == if how.Landed? && t.weather.countWorks then Some(|paper.value.items|) else None
  {
    if paper.None? {
      return Some(0), NotReached;
    }
    var prepared := paper.value;
    hide PaperIds, Put, AfterFailure, FateOf, AllItems, AfterDeletes, Recorded;
    ghost var w := WorldOf(s);
    OfOne(w, prepared, t);
    if !t.embeds {
      return None, NotReached;
    }
    if PaperIds(s.rows, prepared.paper) != {} {
      var _ := Delete(s, prepared.paper, t.cascade(prepared.paper));
    }
    ghost var deleted := WorldOf(s);
    OfOne(deleted, prepared, t);
    var added, landed, lo, hi := s.AddDocuments(prepared.items, upsertBatch, t.weather);
    how := if landed then Landed else Failed(lo, hi);
    if !added {
      return None, how;
    }
    if t.logs(prepared.paper) {
      s.log := s.log[prepared.paper := IdSet(prepared.items)];
    }
    return Some(|prepared.items|), how;
  }

  /** `_post_ingest_refresh` without ids, as every caller calls it: the lexical index is dropped... */
  method Refresh(s: Stores)
    modifies s`bm25
    ensures WorldOf(s) == old(WorldOf(s)).(bm25 := None)
  {
    s.bm25 := None;
  }

  /** ... and the next query, or the warming thread, builds it from the collection. */
  method Rebuild(s: Stores)
    modifies s`bm25
    ensures WorldOf(s) == Rebuilt(old(WorldOf(s)))
    ensures s.bm25 == if old(s.bm25).None? then Some(s.rows.Keys) else old(s.bm25)
  {
    if s.bm25.None? {
      s.bm25 := Some(s.rows.Keys);
    }
  }

  function Rebuilt(w: World): World {
    if w.bm25.None? then w.(bm25 := Some(w.rows.Keys)) else w
  }

  lemma {:induction false} RebuiltInStep(owner: map<Id, Paper>, w: World)
    requires InStep(owner, w)
    ensures InStep(owner, Rebuilt(w))
  {
    forall p ensures Agrees(ViewOf(owner, Rebuilt(w), p)) {
      assert Agrees(ViewOf(owner, w, p));
    }
    forall id | id in w.rows ensures id in owner {
      assert ItemOwned(owner, Item(id, w.rows[id]));
    }
  }

  /** A refresh repairs what the lexical index serves: it leaves the stores in step exactly when the log is right. */
  lemma {:induction false} RefreshRepairs(owner: map<Id, Paper>, w: World)
    requires Sane(owner, w)
    ensures InStep(owner, w.(bm25 := None)) <==> forall p :: PaperIds(w.rows, p) == Logged(w.log, p)
    ensures InStep(owner, w) ==> InStep(owner, w.(bm25 := None))
  {
    var w2 := w.(bm25 := None);
    forall p
      ensures Agrees(ViewOf(owner, w2, p)) <==> PaperIds(w.rows, p) == Logged(w.log, p)
      ensures Agrees(ViewOf(owner, w, p)) ==> Agrees(ViewOf(owner, w2, p))
    {
      PaperIdsAreMine(owner, w.rows, p);
    }
    hide Agrees, ViewOf, PaperIds, Logged;
  }

  // ----- whole runs -----

  datatype Command =
    | IngestThese(papers: seq<Prepared>, upsertBatch: int, trouble: Trouble)
    | DeleteThis(paper: Paper, cascade: Cascade)
    | RefreshIndex
    | RebuildIndex

  /** A batch names its papers' own ids. */
  ghost predicate WellFormed(owner: map<Id, Paper>, c: Command) {
    c.IngestThese? ==> AllOwned(owner, c.papers)
  }

  predicate CanEnd(c: Command, how: How) {
    c.IngestThese? ==> Possible(c.papers, c.trouble, how)
  }

  ghost function Next(w: World, c: Command, how: How): World
    requires CanEnd(c, how)
  {
    match c
    case IngestThese(papers, _, trouble) => Ingested(w, papers, trouble, how)
    case DeleteThis(p, cascade) => Deleted(w, p, FateOf(cascade))
    case RefreshIndex => w.(bm25 := None)
    case RebuildIndex => Rebuilt(w)
  }

  /** The condition for a command to keep the stores in step. */
  ghost predicate Keeps(owner: map<Id, Paper>, w: World, c: Command, how: How)
    requires CanEnd(c, how)
  {
    match c
    case IngestThese(papers, _, t) =>
      t.embeds ==> forall i :: 0 <= i < |papers| ==> PaperKeeps(owner, w, papers, t, how, i)
    case DeleteThis(p, cascade) => DeleteKeeps(ViewOf(owner, w, p), FateOf(cascade))
    case _ => true
  }

  lemma {:induction false} KeepsExactly(owner: map<Id, Paper>, w: World, c: Command, how: How)
    requires InStep(owner, w) && WellFormed(owner, c) && CanEnd(c, how)
    ensures InStep(owner, Next(w, c, how)) <==> Keeps(owner, w, c, how)
  {
    hide InStep, PaperKeeps, Ingested, Deleted, DeleteKeeps, AllOwned;
    match c
    case IngestThese(papers, _, trouble) => IngestKeepsExactly(owner, w, papers, trouble, how);
    case DeleteThis(p, cascade) => DeleteKeepsExactly(owner, w, p, cascade);
    case RefreshIndex => RefreshKeeps(owner, w);
    case RebuildIndex => RebuiltInStep(owner, w);
  }

  lemma {:induction false} RefreshKeeps(owner: map<Id, Paper>, w: World)
    requires InStep(owner, w)
    ensures InStep(owner, w.(bm25 := None))
  {
    RefreshRepairs(owner, w);
  }

  ghost predicate AllCanEnd(cs: seq<Command>, hows: seq<How>) {
    |hows| == |cs| && forall i :: 0 <= i < |cs| ==> CanEnd(cs[i], hows[i])
  }

  /** The stores after the first `n` commands. */
  ghost function After(w: World, cs: seq<Command>, hows: seq<How>, n: nat): World
    requires AllCanEnd(cs, hows) && n <= |cs|
  {
    if n == 0 then w else Next(After(w, cs, hows, n - 1), cs[n - 1], hows[n - 1])
  }

  ghost predicate KeepsAt(owner: map<Id, Paper>, w: World, cs: seq<Command>, hows: seq<How>, i: nat)
    requires AllCanEnd(cs, hows) && i < |cs|
  {
    Keeps(owner, After(w, cs, hows, i), cs[i], hows[i])
  }

  ghost predicate InStepUpTo(owner: map<Id, Paper>, w: World, cs: seq<Command>, hows: seq<How>, n: nat)
    requires AllCanEnd(cs, hows) && n <= |cs|
  {
    forall i :: 0 <= i <= n ==> InStep(owner, After(w, cs, hows, i))
  }

  /** Exactly which runs stay in step: those in which every command meets its condition. */
  lemma {:induction false} InStepThroughout(owner: map<Id, Paper>, w: World, cs: seq<Command>, hows: seq<How>, n: nat)
    requires InStep(owner, w) && AllCanEnd(cs, hows) && n <= |cs|
    requires forall i :: 0 <= i < |cs| ==> WellFormed(owner, cs[i])
    ensures InStepUpTo(owner, w, cs, hows, n) <==> forall i :: 0 <= i < n ==> KeepsAt(owner, w, cs, hows, i)
  {
    if n == 0 {
    } else {
      InStepThroughout(owner, w, cs, hows, n - 1);
      var before := After(w, cs, hows, n - 1);
      hide InStep, Next, Keeps, CanEnd, WellFormed;
      assert InStepUpTo(owner, w, cs, hows, n) <==>
             InStepUpTo(owner, w, cs, hows, n - 1) && InStep(owner, After(w, cs, hows, n));
      assert InStepUpTo(owner, w, cs, hows, n - 1) ==> InStep(owner, before);
      if InStep(owner, before) {
        KeepsExactly(owner, before, cs[n - 1], hows[n - 1]);
        assert InStep(owner, After(w, cs, hows, n)) <==> KeepsAt(owner, w, cs, hows, n - 1);
      }
    }
  }

  /** The cascade comes through: its steps succeed within their retries, and ChromaDB does what it says. */
  predicate ComesThrough(c: Cascade) {
    c.delete != Raised(true) && !Fails2(c.bm25) && !Fails2(c.log)
  }

  /** The failures every command recovers from. */
  ghost predicate Recoverable(c: Command) {
    match c
    case IngestThese(_, _, t) =>
      && (forall p :: ComesThrough(t.cascade(p)) && t.cascade(p).lookupWorks && t.cascade(p).delete == Done)
      && RollsBack(t.weather)
      && (forall p :: LogsAt(t, p))
    case DeleteThis(_, cascade) => ComesThrough(cascade)
    case _ => true
  }

  lemma {:induction false} RecoverableKeeps(owner: map<Id, Paper>, w: World, c: Command, how: How)
    requires InStep(owner, w) && WellFormed(owner, c) && CanEnd(c, how) && Recoverable(c)
    ensures Keeps(owner, w, c, how)
  {
    if c.IngestThese? && c.trouble.embeds {
      var papers, t := c.papers, c.trouble;
      forall i | 0 <= i < |papers| ensures PaperKeeps(owner, w, papers, t, how, i) {
        assert ComesThrough(t.cascade(papers[i].paper));
        assert FateAt(t, papers[i].paper) == Fate(true, true, true);
        assert LogsAt(t, papers[i].paper);
        if how.Failed? {
          RolledBackKeeps(owner, w, papers, t, how, i);
        }
        hide FateAt, Recoverable, RollsBack, AllOwned, InStep, ViewOf, Ingested;
      }
    }
  }

  /** Safety over whole runs: if every failure is recoverable, the stores are in step all along. */
  lemma {:induction false} RecoverableRunsStayInStep(owner: map<Id, Paper>, w: World, cs: seq<Command>,
                                                     hows: seq<How>, n: nat)
    requires InStep(owner, w) && AllCanEnd(cs, hows) && n <= |cs|
    requires forall i :: 0 <= i < |cs| ==> WellFormed(owner, cs[i]) && Recoverable(cs[i])
    ensures InStep(owner, After(w, cs, hows, n))
  {
    if n == 0 {
    } else {
      RecoverableRunsStayInStep(owner, w, cs, hows, n - 1);
      var before := After(w, cs, hows, n - 1);
      hide InStep, Next, Keeps, CanEnd, WellFormed, Recoverable;
      RecoverableKeeps(owner, before, cs[n - 1], hows[n - 1]);
      KeepsExactly(owner, before, cs[n - 1], hows[n - 1]);
    }
  }

  /**
   Any run of ingests, deletes, refreshes and rebuilds, whatever fails in it.  When each failure
   is recoverable, every paper's logged ids are its ChromaDB ids at the end, and the lexical
   index serves only ids ChromaDB has; all of them after a refresh and its rebuild.
   */
  method Run(ghost owner: map<Id, Paper>, s: Stores, commands: seq<Command>) returns (ghost hows: seq<How>)
    modifies s
    ensures AllCanEnd(commands, hows) && WorldOf(s) == After(old(WorldOf(s)), commands, hows, |commands|)
    ensures InStep(owner, old(WorldOf(s))) &&
            (forall i :: 0 <= i < |commands| ==> WellFormed(owner, commands[i]) && Recoverable(commands[i])) ==>
              && InStep(owner, WorldOf(s))
              && (forall p :: PaperIds(s.rows, p) == Logged(s.log, p))
              && (s.bm25.Some? ==> s.bm25.value <= s.rows.Keys)
    ensures |commands| >= 2 && commands[|commands| - 2..] == [RefreshIndex, RebuildIndex] ==>
            s.bm25 == Some(s.rows.Keys)
  {
    hide InStep, WellFormed, Recoverable, Ingested, Deleted, FateOf;
    ghost var w := WorldOf(s);
    hows := [];
    for i := 0 to |commands|
      invariant AllCanEnd(commands[..i], hows) && WorldOf(s) == After(w, commands[..i], hows, i)
      invariant i > 0 && commands[i - 1] == RefreshIndex ==> s.bm25.None?
      invariant i > 1 && commands[i - 2] == RefreshIndex && commands[i - 1] == RebuildIndex ==>
                s.bm25 == Some(s.rows.Keys)
    {
      ghost var how := NotReached;
      match commands[i] {
        case IngestThese(papers, upsertBatch, trouble) =>
          var ok;
          ok, how := IngestDirectory(s, papers, upsertBatch, trouble);
        case DeleteThis(paper, cascade) =>
          var _ := Delete(s, paper, cascade);
        case RefreshIndex => Refresh(s);
        case RebuildIndex => Rebuild(s);
      }
      assert commands[..i + 1] == commands[..i] + [commands[i]];
      AfterExtends(w, commands[..i], hows, commands[i], how, i);
      hows := hows + [how];
    }
    assert commands[..|commands|] == commands;
    ghost var recoverable :=
      forall i :: 0 <= i < |commands| ==> WellFormed(owner, commands[i]) && Recoverable(commands[i]);
    if InStep(owner, w) && recoverable {
      RecoverableRunsStayInStep(owner, w, commands, hows, |commands|);
      InStepIsSane(owner, WorldOf(s));
      InStepMeans(owner, WorldOf(s));
    }
  }

  lemma {:induction false} AfterExtends(w: World, cs: seq<Command>, hows: seq<How>, c: Command, how: How, n: nat)
    requires AllCanEnd(cs, hows) && CanEnd(c, how) && n <= |cs|
    ensures AllCanEnd(cs + [c], hows + [how])
    ensures After(w, cs + [c], hows + [how], n) == After(w, cs, hows, n)
  {
    if n == 0 {
    } else {
      AfterExtends(w, cs, hows, c, how, n - 1);
    }
  }
}
