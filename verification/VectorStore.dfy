/**
 vector_store.py: batched upserts with rollback, and the delete cascade over ChromaDB, the
 lexical index and the ingest log.
 */
module VectorStore {
  import opened Common

  type Id(==, !new)
  type Paper(==, !new)
  type Text(==, !new)

  /** A ChromaDB row: its document, and the paper its metadata names, if any. */
  datatype Row = Row(paper: Option<Paper>, text: Text)

  datatype Item = Item(id: Id, row: Row)

  /** Which of a batch's rows land: all of them, or those at the given places. */
  datatype Landing = All | Only(places: set<nat>)

  predicate Lands(which: Landing, i: nat) {
    which.All? || i in which.places
  }

  /** A batch's upsert works, or fails with some rows landed already and some landing later. */
  datatype Upsert = Works | Fails(landed: set<nat>, late: set<nat>)

  /** The rollback's delete works, or fails having deleted some of what it was asked to. */
  datatype Rollback = Deletes | Breaks(deleted: set<Id>)

  /**
   One call's environment: the probe for the ids already there, the upsert of the batch that starts
   at a place, the rollback's delete, and the row count for the closing log line.
   */
  datatype Weather = Weather(probeWorks: bool, batch: nat -> Upsert, rollback: Rollback, countWorks: bool)

  /** Where batch `i` starts. */
  function StartOf(batch: nat, i: nat): nat {
    batch * i
  }

  /** Every batch that starts before `n` works. */
  ghost predicate BatchesWork(w: Weather, batch: nat, n: nat) {
    forall i: nat :: StartOf(batch, i) < n ==> w.batch(StartOf(batch, i)).Works?
  }

  lemma {:induction false} OneMoreBatch(w: Weather, batch: nat, i: nat, stop: nat)
    requires BatchesWork(w, batch, StartOf(batch, i)) && w.batch(StartOf(batch, i)).Works?
    requires stop <= StartOf(batch, i) + batch
    ensures BatchesWork(w, batch, stop) && StartOf(batch, i + 1) == StartOf(batch, i) + batch
  {
    assert batch * (i + 1) == batch * i + batch;
    forall j: nat | StartOf(batch, j) < stop ensures w.batch(StartOf(batch, j)).Works? {
      if j > i {
        ProductGrows(batch, i + 1, j);
      } else if j < i {
        StartsGrow(batch, j, i);
      }
    }
  }

  lemma {:induction false} StartsGrow(batch: nat, j: nat, i: nat)
    requires j < i
    ensures StartOf(batch, j) < StartOf(batch, i) || batch == 0
  {
    ProductGrows(batch, j + 1, i);
    assert batch * (j + 1) == batch * j + batch;
  }

  lemma {:induction false} ProductGrows(b: nat, x: nat, y: nat)
    requires x <= y
    ensures b * x <= b * y
    decreases y
  {
    if x == y {
    } else {
      ProductGrows(b, x, y - 1);
      assert b * y == b * (y - 1) + b;
    }
  }

  /** The rows after the items from `lo` to `hi` are upserted, as far as they land. */
  function Put(rows: map<Id, Row>, items: seq<Item>, which: Landing, lo: nat, hi: nat): map<Id, Row>
    requires lo <= hi <= |items|
    decreases hi
  {
    if hi == lo then rows
    else if Lands(which, hi - 1) then Put(rows, items, which, lo, hi - 1)[items[hi - 1].id := items[hi - 1].row]
    else Put(rows, items, which, lo, hi - 1)
  }

  /** The ids of those items. */
  ghost function IdsOf(items: seq<Item>, which: Landing, lo: nat, hi: nat): set<Id>
    requires lo <= hi <= |items|
  {
    set i | lo <= i < hi && Lands(which, i) :: items[i].id
  }

  lemma {:induction false} PutKeys(rows: map<Id, Row>, items: seq<Item>, which: Landing, lo: nat, hi: nat)
    requires lo <= hi <= |items|
    ensures Put(rows, items, which, lo, hi).Keys == rows.Keys + IdsOf(items, which, lo, hi)
    decreases hi
  {
    if hi == lo {
    } else {
      PutKeys(rows, items, which, lo, hi - 1);
      IdsGrow(items, which, lo, hi - 1);
    }
  }

  lemma {:induction false} IdsGrow(items: seq<Item>, which: Landing, lo: nat, hi: nat)
    requires lo <= hi < |items|
    ensures IdsOf(items, which, lo, hi + 1) ==
            if Lands(which, hi) then IdsOf(items, which, lo, hi) + {items[hi].id} else IdsOf(items, which, lo, hi)
  {
  }

  /** Where a row can come from: the items, or the rows before. */
  lemma {:induction false} PutRows(rows: map<Id, Row>, items: seq<Item>, which: Landing, lo: nat, hi: nat, id: Id)
    requires lo <= hi <= |items|
    ensures var after := Put(rows, items, which, lo, hi);
            && (id in after ==> (id in rows && after[id] == rows[id]) || Item(id, after[id]) in items[lo..hi])
            && (id !in IdsOf(items, All, lo, hi) ==>
               (id in after <==> id in rows) && (id in rows ==> after[id] == rows[id]))
    decreases hi
  {
    if hi == lo {
    } else {
      PutRows(rows, items, which, lo, hi - 1, id);
      IdsGrow(items, All, lo, hi - 1);
      assert items[lo..hi] == items[lo..hi - 1] + [items[hi - 1]];
    }
  }

  /** The last item of an id that lands gives its row; ids of which none lands keep theirs. */
  lemma {:induction false} LastLandedWins(rows: map<Id, Row>, items: seq<Item>, which: Landing, lo: nat, hi: nat,
                                          i: nat)
    requires lo <= i < hi <= |items| && (which.All? || i in which.places)
    requires forall j :: i < j < hi && (which.All? || j in which.places) ==> items[j].id != items[i].id
    ensures var after := Put(rows, items, which, lo, hi);
            items[i].id in after && after[items[i].id] == items[i].row
    decreases hi
  {
    if i < hi - 1 {
      LastLandedWins(rows, items, which, lo, hi - 1, i);
    }
  }

  lemma {:induction false} OthersKeepTheirs(rows: map<Id, Row>, items: seq<Item>, which: Landing, lo: nat, hi: nat,
                                            id: Id)
    requires lo <= hi <= |items|
    requires forall j :: lo <= j < hi && (which.All? || j in which.places) ==> items[j].id != id
    ensures var after := Put(rows, items, which, lo, hi);
            (id in after <==> id in rows) && (id in rows ==> after[id] == rows[id])
    decreases hi
  {
    if hi == lo {
    } else {
      OthersKeepTheirs(rows, items, which, lo, hi - 1, id);
    }
  }

  lemma {:induction false} PutSplits(rows: map<Id, Row>, items: seq<Item>, which: Landing, lo: nat, mid: nat, hi: nat)
    requires lo <= mid <= hi <= |items|
    ensures Put(rows, items, which, lo, hi) == Put(Put(rows, items, which, lo, mid), items, which, mid, hi)
    decreases hi
  {
    if hi == mid {
    } else {
      PutSplits(rows, items, which, lo, mid, hi - 1);
    }
  }

  /**
   The rows after a call that fails in the batch from `lo` to `hi`: what landed by then, without
   what the rollback took, and with what landed after it.
   */
  ghost function AfterFailure(rows: map<Id, Row>, items: seq<Item>, lo: nat, hi: nat, w: Weather): map<Id, Row>
    requires lo <= hi <= |items| && w.batch(lo).Fails?
  {
    var upsert := w.batch(lo);
    var landed := Put(Put(rows, items, All, 0, lo), items, Only(upsert.landed), lo, hi);
    Put(landed - Removed(rows, items, hi, w), items, Only(upsert.late), lo, hi)
  }

  /** Of the attempted ids, those that the rollback's delete would take if it were asked for all. */
  ghost function Taken(items: seq<Item>, hi: nat, w: Weather): set<Id>
    requires hi <= |items|
  {
    match w.rollback
    case Deletes => IdsOf(items, All, 0, hi)
    case Breaks(deleted) => IdsOf(items, All, 0, hi) * deleted
  }

  /** What the rollback deletes: of the attempted ids, those that the probe did not find. */
  ghost function Removed(rows: map<Id, Row>, items: seq<Item>, hi: nat, w: Weather): set<Id>
    requires hi <= |items|
  {
    if w.probeWorks then Taken(items, hi, w) - rows.Keys else Taken(items, hi, w)
  }

  /** The ids that land only after the rollback. */
  ghost function Late(items: seq<Item>, lo: nat, hi: nat, w: Weather): set<Id>
    requires lo <= hi <= |items| && w.batch(lo).Fails?
  {
    IdsOf(items, Only(w.batch(lo).late), lo, hi)
  }

  /** The ids that have landed when the rollback runs. */
  ghost function InTime(items: seq<Item>, lo: nat, hi: nat, w: Weather): set<Id>
    requires lo <= hi <= |items| && w.batch(lo).Fails?
  {
    IdsOf(items, All, 0, lo) + IdsOf(items, Only(w.batch(lo).landed), lo, hi)
  }

  /** What the rollback misses: ids that its delete does not take, and ids that land after it. */
  ghost function Strays(items: seq<Item>, lo: nat, hi: nat, w: Weather): set<Id>
    requires lo <= hi <= |items| && w.batch(lo).Fails?
  {
    (InTime(items, lo, hi, w) - Taken(items, hi, w)) + Late(items, lo, hi, w)
  }

  /** What the rollback costs when it does not know which ids are old. */
  ghost function Lost(items: seq<Item>, lo: nat, hi: nat, w: Weather): set<Id>
    requires lo <= hi <= |items| && w.batch(lo).Fails?
  {
    if w.probeWorks then {} else Taken(items, hi, w) - Late(items, lo, hi, w)
  }

  lemma {:induction false} IdsAreAttempted(items: seq<Item>, which: Landing, lo: nat, hi: nat)
    requires lo <= hi <= |items|
    ensures IdsOf(items, which, lo, hi) <= IdsOf(items, All, 0, hi)
    ensures IdsOf(items, All, 0, lo) <= IdsOf(items, All, 0, hi)
  {
  }

  lemma {:induction false} KeysAfterFailure(rows: map<Id, Row>, items: seq<Item>, lo: nat, hi: nat, w: Weather)
    requires lo <= hi <= |items| && w.batch(lo).Fails?
    ensures AfterFailure(rows, items, lo, hi, w).Keys ==
            rows.Keys + IdsOf(items, All, 0, lo) + IdsOf(items, Only(w.batch(lo).landed), lo, hi)
            - Removed(rows, items, hi, w) + Late(items, lo, hi, w)
  {
    var upsert := w.batch(lo);
    var written := Put(rows, items, All, 0, lo);
    var landed := Put(written, items, Only(upsert.landed), lo, hi);
    PutKeys(rows, items, All, 0, lo);
    PutKeys(written, items, Only(upsert.landed), lo, hi);
    PutKeys(landed - Removed(rows, items, hi, w), items, Only(upsert.late), lo, hi);
  }

  /** What any failed call leaves: the old ids but for the lost ones, and the strays. */
  lemma {:induction false} FailedAddLeaves(rows: map<Id, Row>, items: seq<Item>, lo: nat, hi: nat, w: Weather)
    requires lo <= hi <= |items| && w.batch(lo).Fails?
    ensures AfterFailure(rows, items, lo, hi, w).Keys == rows.Keys - Lost(items, lo, hi, w) + Strays(items, lo, hi, w)
  {
    KeysAfterFailure(rows, items, lo, hi, w);
    hide AfterFailure, Late, IdsOf, Taken;
  }

  /** Exactly when a failed call leaves the ids as they were, whatever fails in its probe and its rollback. */
  lemma {:induction false} FailedAddIsExact(rows: map<Id, Row>, items: seq<Item>, lo: nat, hi: nat, w: Weather)
    requires lo <= hi <= |items| && w.batch(lo).Fails?
    ensures AfterFailure(rows, items, lo, hi, w).Keys == rows.Keys <==>
            Strays(items, lo, hi, w) <= rows.Keys && Lost(items, lo, hi, w) !! rows.Keys
  {
    FailedAddLeaves(rows, items, lo, hi, w);
    assert Lost(items, lo, hi, w) !! Strays(items, lo, hi, w);
    var lost, strays := Lost(items, lo, hi, w), Strays(items, lo, hi, w);
    hide AfterFailure, Lost, Strays;
    if lost !! rows.Keys {
      assert rows.Keys - lost == rows.Keys;
    } else {
      var id :| id in lost && id in rows;
      assert id !in rows.Keys - lost + strays;
    }
  }

  /**
   Rollback exactness: when the probe and the rollback work, a failed call leaves the ids as
   they were, if and only if nothing new lands after the rollback.
   */
  lemma {:induction false} RollbackIsExact(rows: map<Id, Row>, items: seq<Item>, lo: nat, hi: nat, w: Weather)
    requires lo <= hi <= |items| && w.batch(lo).Fails? && w.probeWorks && w.rollback.Deletes?
    ensures AfterFailure(rows, items, lo, hi, w).Keys == rows.Keys <==> Late(items, lo, hi, w) <= rows.Keys
  {
    KeysAfterFailure(rows, items, lo, hi, w);
    IdsAreAttempted(items, Only(w.batch(lo).landed), lo, hi);
    hide AfterFailure, Late, IdsOf;
  }

  /** When the probe works, no id that was there is ever lost, whatever else goes wrong. */
  lemma {:induction false} OldIdsSurvive(rows: map<Id, Row>, items: seq<Item>, lo: nat, hi: nat, w: Weather)
    requires lo <= hi <= |items| && w.batch(lo).Fails? && w.probeWorks
    ensures rows.Keys <= AfterFailure(rows, items, lo, hi, w).Keys
  {
    KeysAfterFailure(rows, items, lo, hi, w);
    hide AfterFailure, Late, IdsOf;
  }

  /** When the probe fails, a working rollback deletes every attempted id, old or new. */
  lemma {:induction false} BlindRollbackDeletesOldIds(rows: map<Id, Row>, items: seq<Item>, lo: nat, hi: nat,
                                                      w: Weather)
    requires lo <= hi <= |items| && w.batch(lo).Fails? && !w.probeWorks && w.rollback.Deletes?
    ensures AfterFailure(rows, items, lo, hi, w).Keys == rows.Keys - IdsOf(items, All, 0, hi) + Late(items, lo, hi, w)
  {
    KeysAfterFailure(rows, items, lo, hi, w);
    IdsAreAttempted(items, Only(w.batch(lo).landed), lo, hi);
    hide AfterFailure, Late, IdsOf;
  }

  /** Rows outside the attempted batches are untouched; the others hold old or given content. */
  lemma {:induction false} OtherRowsAreUntouched(rows: map<Id, Row>, items: seq<Item>, lo: nat, hi: nat, w: Weather,
                                                 id: Id)
    requires lo <= hi <= |items| && w.batch(lo).Fails?
    ensures var after := AfterFailure(rows, items, lo, hi, w);
            && (id in after ==> (id in rows && after[id] == rows[id]) || Item(id, after[id]) in items[..hi])
            && (id !in IdsOf(items, All, 0, hi) ==>
               (id in after <==> id in rows) && (id in rows ==> after[id] == rows[id]))
  {
    var upsert := w.batch(lo);
    var written := Put(rows, items, All, 0, lo);
    var landed := Put(written, items, Only(upsert.landed), lo, hi);
    PutRows(rows, items, All, 0, lo, id);
    PutRows(written, items, Only(upsert.landed), lo, hi, id);
    PutRows(landed - Removed(rows, items, hi, w), items, Only(upsert.late), lo, hi, id);
    IdsAreAttempted(items, All, lo, hi);
    hide Put, IdsOf;
    assert items[..hi] == items[0..lo] + items[lo..hi];
  }

  /** The id lands in time at none of the places from `i` to `hi` of a call that fails from `lo` on. */
  ghost predicate LandsNotFrom(items: seq<Item>, lo: nat, hi: nat, places: set<nat>, i: nat, id: Id)
    requires hi <= |items|
  {
    forall j :: i <= j < hi && (j < lo || j in places) ==> items[j].id != id
  }

  /**
   Nothing restores the rows a failed call has overwritten: an id that the rollback leaves alone, and
   that does not land again, has the row of the last item that landed for it...
   */
  lemma {:induction false} OverwrittenRowStays(rows: map<Id, Row>, items: seq<Item>, lo: nat, hi: nat, w: Weather,
                                               i: nat)
    requires i < hi && lo <= hi <= |items| && w.batch(lo).Fails? && (i < lo || i in w.batch(lo).landed)
    requires LandsNotFrom(items, lo, hi, w.batch(lo).landed, i + 1, items[i].id)
    requires items[i].id !in Removed(rows, items, hi, w) && items[i].id !in Late(items, lo, hi, w)
    ensures var after := AfterFailure(rows, items, lo, hi, w);
            items[i].id in after && after[items[i].id] == items[i].row
  {
    var upsert, id := w.batch(lo), items[i].id;
    var written := Put(rows, items, All, 0, lo);
    var landed := Put(written, items, Only(upsert.landed), lo, hi);
    if i < lo {
      LastLandedWins(rows, items, All, 0, lo, i);
      OthersKeepTheirs(written, items, Only(upsert.landed), lo, hi, id);
    } else {
      LastLandedWins(written, items, Only(upsert.landed), lo, hi, i);
    }
    hide Put, Removed;
    NotLate(rows, landed, items, lo, hi, w, id);
  }

  /** ... or its old one, if none did. */
  lemma {:induction false} UntriedRowStays(rows: map<Id, Row>, items: seq<Item>, lo: nat, hi: nat, w: Weather, id: Id)
    requires lo <= hi <= |items| && w.batch(lo).Fails? && LandsNotFrom(items, lo, hi, w.batch(lo).landed, 0, id)
    requires id !in Removed(rows, items, hi, w) && id !in Late(items, lo, hi, w)
    ensures var after := AfterFailure(rows, items, lo, hi, w);
            (id in after <==> id in rows) && (id in rows ==> after[id] == rows[id])
  {
    var upsert := w.batch(lo);
    var written := Put(rows, items, All, 0, lo);
    var landed := Put(written, items, Only(upsert.landed), lo, hi);
    OthersKeepTheirs(rows, items, All, 0, lo, id);
    OthersKeepTheirs(written, items, Only(upsert.landed), lo, hi, id);
    hide Put, Removed;
    NotLate(rows, landed, items, lo, hi, w, id);
  }

  lemma {:induction false} NotLate(rows: map<Id, Row>, landed: map<Id, Row>, items: seq<Item>, lo: nat, hi: nat,
                                   w: Weather, id: Id)
    requires lo <= hi <= |items| && w.batch(lo).Fails?
    requires id !in Removed(rows, items, hi, w) && id !in Late(items, lo, hi, w)
    requires landed == Put(Put(rows, items, All, 0, lo), items, Only(w.batch(lo).landed), lo, hi)
    ensures var after := AfterFailure(rows, items, lo, hi, w);
            (id in after <==> id in landed) && (id in landed ==> after[id] == landed[id])
  {
    forall j | lo <= j < hi && j in w.batch(lo).late ensures items[j].id != id {
      assert Lands(Only(w.batch(lo).late), j);
      assert items[j].id in Late(items, lo, hi, w);
    }
    hide Put, Removed, Late;
    OthersKeepTheirs(landed - Removed(rows, items, hi, w), items, Only(w.batch(lo).late), lo, hi, id);
  }

  function BatchSize(upsertBatch: int): (batch: nat)
    ensures batch >= upsertBatch && batch >= 1 && (batch == upsertBatch || batch == 1)
  {
    if upsertBatch > 1 then upsertBatch else 1
  }

  /** A cascade step's two tries: each works, or raises with its work done or not. */
  datatype Try = Done | Raised(anyway: bool)
  datatype Tries = Tries(first: Try, second: Try)

  predicate Fails2(t: Tries) {
    t.first.Raised? && t.second.Raised?
  }

  /** The step's work has happened, on whichever try. */
  predicate Happens(t: Tries) {
    t.first == Done || t.first.anyway || t.second == Done || t.second.anyway
  }

  /** The delete's environment: the lookup, the ChromaDB delete, and the two cascade steps. */
  datatype Cascade = Cascade(lookupWorks: bool, delete: Try, bm25: Tries, log: Tries)

  datatype Step = Bm25Step | LogStep

  datatype DeleteOutcome = Deleted(chunks: nat) | Incomplete(chunks: nat, steps: seq<Step>) | Unavailable

  /** The ids of a paper's rows. */
  function PaperIds(rows: map<Id, Row>, p: Paper): (ids: set<Id>)
    ensures forall id :: id in rows && rows[id].paper == Some(p) <==> id in ids
  {
    set id | id in rows && rows[id].paper == Some(p)
  }

  /** The collection, the live ids of the lexical index if one is built, and the logged ids by paper. */
  class Stores {
    var rows: map<Id, Row>
    var bm25: Option<set<Id>>
    var log: map<Paper, set<Id>>

    constructor ()
      ensures rows == map[] && bm25 == None && log == map[]
    {
      rows, bm25, log := map[], None, map[];
    }

    /**
     `add_documents`, for any batch size and any list of ids.  It raises when a batch fails, and
     also when everything landed but the closing row count fails.
     */
    method AddDocuments(items: seq<Item>, upsertBatch: int, w: Weather)
      returns (ok: bool, ghost landed: bool, ghost lo: nat, ghost hi: nat)
      modifies `rows
      ensures lo <= hi <= |items| && ok == (landed && w.countWorks)
      ensures BatchesWork(w, BatchSize(upsertBatch), if landed then |items| else lo)
      ensures landed ==> rows == Put(old(rows), items, All, 0, |items|)
      ensures !landed ==> w.batch(lo).Fails? && rows == AfterFailure(old(rows), items, lo, hi, w)
      ensures !landed ==> lo < hi == Min(|items|, lo + BatchSize(upsertBatch))
      ensures !landed ==> exists i :: lo == StartOf(BatchSize(upsertBatch), i)
    {
      var batch := BatchSize(upsertBatch);
      var preexisting := if w.probeWorks then set i | 0 <= i < |items| && items[i].id in rows :: items[i].id else {};
      var start := 0;
      ghost var round := 0;
      var attempted: seq<Id> := [];
      while start < |items|
        invariant start <= |items| && (start < |items| ==> start == StartOf(batch, round)) &&
                  BatchesWork(w, batch, start)
        invariant rows == Put(old(rows), items, All, 0, start)
        invariant |attempted| == start && forall i :: 0 <= i < start ==> attempted[i] == items[i].id
      {
        var stop := Min(|items|, start + batch);
        attempted := attempted + seq(stop - start, i requires 0 <= i < stop - start => items[start + i].id);
        var upsert := w.batch(start);
        if upsert.Fails? {
          rows := Put(rows, items, Only(upsert.landed), start, stop);
          var orphans := set id <- attempted | id !in preexisting;
          OrphansAre(old(rows), items, attempted, preexisting, stop, w);
          if orphans != {} {
            var gone := match w.rollback case Deletes => orphans case Breaks(deleted) => orphans * deleted;
            rows := rows - gone;
          }
          assert rows == Put(Put(old(rows), items, All, 0, start), items, Only(upsert.landed), start, stop)
                         - Removed(old(rows), items, stop, w);
          rows := Put(rows, items, Only(upsert.late), start, stop);
          return false, false, start, stop;
        }
        OneMoreBatch(w, batch, round, stop);
        round := round + 1;
        PutSplits(old(rows), items, All, 0, start, stop);
        rows := Put(rows, items, All, start, stop);
        start := stop;
      }
      return w.countWorks, true, 0, 0;
    }

    /** `delete_by_paper_id`: ChromaDB first, then each cascade step with one retry. */
    method DeleteByPaperId(p: Paper, c: Cascade) returns (outcome: DeleteOutcome)
      modifies this
      ensures outcome.Unavailable? <==> !c.lookupWorks || c.delete.Raised?
      ensures rows == if c.lookupWorks && (c.delete == Done || c.delete.anyway)
                      then old(rows) - PaperIds(old(rows), p) else old(rows)
      ensures outcome.Unavailable? || PaperIds(old(rows), p) == {} ==> bm25 == old(bm25) && log == old(log)
      ensures !outcome.Unavailable? && PaperIds(old(rows), p) != {} ==>
                && bm25 == (if Happens(c.bm25) && old(bm25).Some?
                            then Some(old(bm25).value - PaperIds(old(rows), p)) else old(bm25))
                && log == (if Happens(c.log) then old(log) - {p} else old(log))
      ensures !outcome.Unavailable? ==> outcome.chunks == |PaperIds(old(rows), p)|
      ensures outcome.Incomplete? ==>
                && outcome.chunks > 0 && (Fails2(c.bm25) || Fails2(c.log))
                && outcome.steps == (if Fails2(c.bm25) then [Bm25Step] else []) +
                   (if Fails2(c.log) then [LogStep] else [])
      ensures outcome.Deleted? && outcome.chunks > 0 ==> !Fails2(c.bm25) && !Fails2(c.log)
    {
      if !c.lookupWorks {
        return Unavailable;
      }
      var ids := PaperIds(rows, p);
      if c.delete == Done || c.delete.anyway {
        rows := rows - ids;
      }
      if c.delete.Raised? {
        return Unavailable;
      }
      if ids == {} {
        return Deleted(0);
      }
      var failed: seq<Step> := [];
      var bm25Done := Compensate(p, ids, Bm25Step, c.bm25);
      if !bm25Done {
        failed := failed + [Bm25Step];
      }
      var logDone := Compensate(p, ids, LogStep, c.log);
      if !logDone {
        failed := failed + [LogStep];
      }
      if failed != [] {
        return Incomplete(|ids|, failed);
      }
      return Deleted(|ids|);
    }

    /** One cascade step: try, and try again once; the step is idempotent. */
    method Compensate(p: Paper, ids: set<Id>, step: Step, tries: Tries) returns (ok: bool)
      modifies `bm25, `log
      ensures ok == (tries.first == Done || tries.second == Done) == !Fails2(tries)
      ensures Happens(tries) == (ok || tries.first.anyway || tries.second.anyway)
      ensures bm25 == if step == Bm25Step && Happens(tries) && old(bm25).Some?
                      then Some(old(bm25).value - ids) else old(bm25)
      ensures log == if step == LogStep && Happens(tries) then old(log) - {p} else old(log)
    {
      assert old(bm25).Some? ==> old(bm25).value - ids - ids == old(bm25).value - ids;
      for attempt := 1 to 3
        invariant attempt == 1 ==> bm25 == old(bm25) && log == old(log)
        invariant attempt > 1 ==> tries.first.Raised?
        invariant attempt > 2 ==> tries.second.Raised?
        invariant bm25 == if step == Bm25Step && old(bm25).Some? &&
                             ((attempt > 1 && tries.first.anyway) || (attempt > 2 && tries.second.anyway))
                          then Some(old(bm25).value - ids) else old(bm25)
        invariant log == if step == LogStep &&
                            ((attempt > 1 && tries.first.anyway) || (attempt > 2 && tries.second.anyway))
                         then old(log) - {p} else old(log)
      {
        var now := if attempt == 1 then tries.first else tries.second;
        if now == Done || now.anyway {
          match step {
            case Bm25Step => if bm25.Some? { bm25 := Some(bm25.value - ids); }
            case LogStep => log := log - {p};
          }
        }
        if now == Done {
          return true;
        }
      }
      return false;
    }
  }

  lemma {:induction false} OrphansAre(rows: map<Id, Row>, items: seq<Item>, attempted: seq<Id>, preexisting: set<Id>,
                                      hi: nat, w: Weather)
    requires hi <= |items| && |attempted| == hi && forall i :: 0 <= i < hi ==> attempted[i] == items[i].id
    requires preexisting == if w.probeWorks then set i | 0 <= i < |items| && items[i].id in rows :: items[i].id else {}
    ensures var orphans := set id <- attempted | id !in preexisting;
            Removed(rows, items, hi, w) ==
            match w.rollback { case Deletes => orphans case Breaks(deleted) => orphans * deleted }
  {
    var orphans := set id <- attempted | id !in preexisting;
    var all := IdsOf(items, All, 0, hi);
    assert forall id :: id in attempted <==> id in all by {
      forall id | id in attempted ensures id in all {
        var i :| 0 <= i < hi && attempted[i] == id;
        assert items[i].id in all;
      }
      forall id | id in all ensures id in attempted {
        var i :| 0 <= i < hi && items[i].id == id;
        assert attempted[i] in attempted;
      }
    }
    assert orphans == if w.probeWorks then all - rows.Keys else all;
  }
}
