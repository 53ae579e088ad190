/**
 The SQLite side of persistence.py: batches, savepoints and commits on one shared connection,
 and the paper index that mirrors the ingest log.
 */
module Transactions {

  type Paper(==, !new)
  type Title(==, !new)
  type Year(==, !new)
  type ChunkId(==, !new)
  type Content(==, !new)        // chunks, hashes, timestamps: what the log keeps for a replay

  /** A row of `ingest_log`, and of `paper_index`. */
  datatype LogRow = LogRow(title: Title, year: Year, ids: seq<ChunkId>, content: Content)
  datatype IndexRow = IndexRow(title: Title, year: Year, chunkCount: nat)

  datatype Tables = Tables(log: map<Paper, LogRow>, index: map<Paper, IndexRow>)

  function IndexOf(row: LogRow): IndexRow {
    IndexRow(row.title, row.year, |row.ids|)
  }

  /** The index row holds the log row's title, year and number of chunks. */
  predicate Mirrors(i: IndexRow, row: LogRow) {
    i.title == row.title && i.year == row.year && i.chunkCount == |row.ids|
  }

  /** One index row per logged paper, and nothing else. */
  ghost predicate Mirror(t: Tables) {
    && t.index.Keys == t.log.Keys
    && forall p :: p in t.log ==> Mirrors(t.index[p], t.log[p])
  }

  // ----- what the two tables go through -----

  /** What a write did to the two tables; a deletion is half done when its second statement failed. */
  datatype Action =
    | Wrote(paper: Paper, row: LogRow)
    | Dropped(paper: Paper) | HalfDropped(paper: Paper)
    | Cleared | HalfCleared

  type History = seq<Action>

  function Act(t: Tables, a: Action): Tables {
    match a
    case Wrote(p, row) => Tables(t.log[p := row], t.index[p := IndexOf(row)])
    case Dropped(p) => Tables(t.log - {p}, t.index - {p})
    case HalfDropped(p) => t.(log := t.log - {p})
    case Cleared => Tables(map[], map[])
    case HalfCleared => t.(log := map[])
  }

  /** The tables after the first `n` actions of a history. */
  function After(h: History, n: nat): Tables
    requires n <= |h|
  {
    if n == 0 then Tables(map[], map[]) else Act(After(h, n - 1), h[n - 1])
  }

  function TablesOf(h: History): Tables {
    After(h, |h|)
  }

  lemma {:induction false} PastIsPast(h: History, more: History, n: nat)
    requires n <= |h|
    ensures After(h + more, n) == After(h, n)
  {
    if n == 0 {
    } else {
      PastIsPast(h, more, n - 1);
    }
  }

  lemma {:induction false} OneMoreAction(h: History, a: Action)
    ensures TablesOf(h + [a]) == Act(TablesOf(h), a)
  {
    PastIsPast(h, [a], |h|);
  }

  /** Every logged paper has its index row, whatever failed. */
  lemma {:induction false} LoggedIsIndexed(h: History, n: nat)
    requires n <= |h|
    ensures forall p :: p in After(h, n).log ==>
              p in After(h, n).index && Mirrors(After(h, n).index[p], After(h, n).log[p])
  {
    if n == 0 {
    } else {
      LoggedIsIndexed(h, n - 1);
    }
  }

  predicate HalfDeletes(a: Action, p: Paper) {
    a == HalfDropped(p) || a == HalfCleared
  }

  /** After this the two tables agree on `p` again. */
  predicate Settles(a: Action, p: Paper) {
    (a.Wrote? && a.paper == p) || a == Dropped(p) || a == Cleared
  }

  /** Action `i` half-deleted `p` while it was logged, and nothing settled it since. */
  ghost predicate Unsettled(h: History, n: nat, p: Paper, i: nat)
    requires n <= |h|
  {
    && i < n && HalfDeletes(h[i], p) && p in After(h, i).log
    && forall j :: i < j < n ==> !Settles(h[j], p)
  }

  lemma {:induction false} UnfoldAfter(h: History, n: nat)
    requires 0 < n <= |h|
    ensures After(h, n) == Act(After(h, n - 1), h[n - 1])
  {
  }

  ghost predicate Orphan(t: Tables, p: Paper) {
    p in t.index && p !in t.log
  }

  ghost predicate LeftHalfDeleted(h: History, n: nat, p: Paper)
    requires n <= |h|
  {
    exists i :: Unsettled(h, n, p, i)
  }

  /** What one more action means for a half deletion. */
  lemma {:induction false} UnsettledStep(h: History, n: nat, p: Paper)
    requires 0 < n <= |h|
    ensures LeftHalfDeleted(h, n, p) <==>
            || (HalfDeletes(h[n - 1], p) && p in After(h, n - 1).log)
            || (!Settles(h[n - 1], p) && LeftHalfDeleted(h, n - 1, p))
  {
    hide After;
    if HalfDeletes(h[n - 1], p) && p in After(h, n - 1).log {
      assert Unsettled(h, n, p, n - 1);
    }
    if i: nat :| i < n - 1 && Unsettled(h, n, p, i) {
      assert Unsettled(h, n - 1, p, i);
    }
    if LeftHalfDeleted(h, n - 1, p) && !Settles(h[n - 1], p) {
      var i: nat :| Unsettled(h, n - 1, p, i);
      assert Unsettled(h, n, p, i);
    }
  }

  /** What one more action means for an orphan, given that logged papers are indexed. */
  lemma {:induction false} OrphanStep(t: Tables, a: Action, p: Paper)
    requires p in t.log ==> p in t.index
    ensures Orphan(Act(t, a), p) <==> (HalfDeletes(a, p) && p in t.log) || (!Settles(a, p) && Orphan(t, p))
  {
  }

  /** A paper is indexed without being logged exactly when a half deletion of it was never settled. */
  lemma {:induction false} OrphanExactly(h: History, n: nat, p: Paper)
    requires n <= |h|
    ensures Orphan(After(h, n), p) <==> LeftHalfDeleted(h, n, p)
  {
    if n == 0 {
    } else {
      OrphanExactly(h, n - 1, p);
      LoggedIsIndexed(h, n - 1);
      UnsettledStep(h, n, p);
      OrphanStep(After(h, n - 1), h[n - 1], p);
      UnfoldAfter(h, n);
      hide *;
    }
  }

  /**
   When the mirror is lost: exactly when a half deletion of a logged paper is in the history and
   that paper was neither written nor wholly deleted since.
   */
  lemma {:induction false} MirrorLostExactly(h: History)
    ensures !Mirror(TablesOf(h)) <==> exists p :: LeftHalfDeleted(h, |h|, p)
  {
    var t := TablesOf(h);
    LoggedIsIndexed(h, |h|);
    forall p ensures Orphan(t, p) <==> LeftHalfDeleted(h, |h|, p) {
      OrphanExactly(h, |h|, p);
    }
    hide After, LeftHalfDeleted;
    if !Mirror(t) {
      assert exists p :: p in t.index && p !in t.log;
      var p :| p in t.index && p !in t.log;
      assert Orphan(t, p);
      assert LeftHalfDeleted(h, |h|, p);
    }
  }

  // ----- what callers do -----

  /** Which statement of a write fails, if any. */
  datatype Fault = NoFault | AtFirst | AtSecond

  /**
   What callers do between two lock releases.  `OtherWrite` writes another table, or is any other
   code that may raise; `Guarded` is a caller that swallows exceptions.
   */
  datatype Command =
    | Record(paper: Paper, row: LogRow, fault: Fault)
    | Delete(paper: Paper, fault: Fault)
    | Clear(fault: Fault)
    | OtherWrite(fault: Fault)
    | Guarded(command: Command)
    | Batch(body: Commands)
  datatype Commands = Nil | Then(first: Command, rest: Commands)

  /** What a command did to the tables, and whether it returned rather than raised. */
  datatype Outcome = Outcome(trace: History, ok: bool)

  /** Inside an open batch nothing is undone: what was done before an exception stays done. */
  ghost function Inner(c: Command): Outcome
    decreases c
  {
    match c
    case Record(p, row, fault) => if fault.NoFault? then Outcome([Wrote(p, row)], true) else Outcome([], false)
    case Delete(p, NoFault) => Outcome([Dropped(p)], true)
    case Delete(p, AtSecond) => Outcome([HalfDropped(p)], false)
    case Clear(NoFault) => Outcome([Cleared], true)
    case Clear(AtSecond) => Outcome([HalfCleared], false)
    case OtherWrite(NoFault) => Outcome([], true)
    case Guarded(inner) => Outcome(Inner(inner).trace, true)
    case Batch(body) => InnerAll(body)
    case _ => Outcome([], false)
  }

  ghost function InnerAll(cs: Commands): Outcome
    decreases cs
  {
    match cs
    case Nil => Outcome([], true)
    case Then(first, rest) =>
      var o := Inner(first);
      if o.ok then Outcome(o.trace + InnerAll(rest).trace, InnerAll(rest).ok) else o
  }

  /** What the connection has gone through, and how much of it is committed. */
  datatype State = State(done: History, kept: History)

  datatype Effect = Effect(state: State, ok: bool)

  /** Outside any batch a write that returns commits all there is; a batch commits or goes back to what is committed. */
  ghost function Top(c: Command, s: State): Effect
    decreases c
  {
    match c
    case Guarded(inner) => Effect(Top(inner, s).state, true)
    case Batch(body) => BatchTop(InnerAll(body), s)
    case _ => WriteTop(Inner(c), s)
  }

  ghost function WriteTop(o: Outcome, s: State): Effect {
    var done := s.done + o.trace;
    Effect(State(done, if o.ok then done else s.kept), o.ok)
  }

  ghost function BatchTop(o: Outcome, s: State): Effect {
    if o.ok then Effect(State(s.done + o.trace, s.done + o.trace), true) else Effect(State(s.kept, s.kept), false)
  }

  /** A savepoint, and whether it was what opened the transaction. */
  datatype Savepoint = Savepoint(tables: Tables, outermost: bool)

  class Database {
    var work: Tables                   // what the shared connection sees
    var disk: Tables                   // what is committed: every reader's snapshot
    var inTransaction: bool
    var batchDepth: nat
    ghost var done: History            // what led to `work`
    ghost var kept: History            // what led to `disk`
    ghost var commits: seq<History>    // every state ever committed

    ghost predicate Valid()
      reads this
    {
      && work == TablesOf(done) && disk == TablesOf(kept)
      && kept <= done && (!inTransaction ==> done == kept)
      && kept == if commits == [] then [] else commits[|commits| - 1]
    }

    ghost function Now(): State
      reads this
    {
      State(done, kept)
    }

    constructor ()
      ensures Valid() && batchDepth == 0 && Now() == State([], []) && commits == []
    {
      work, disk := Tables(map[], map[]), Tables(map[], map[]);
      inTransaction, batchDepth, done, kept, commits := false, 0, [], [], [];
    }

    // SQLite's own statements.

    method Begin()
      requires !inTransaction
      modifies `inTransaction
      ensures inTransaction
    {
      inTransaction := true;
    }

    method Commit()
      requires work == TablesOf(done)
      modifies `disk, `inTransaction, `kept, `commits
      ensures disk == work && !inTransaction && kept == done && commits == old(commits) + [done]
    {
      disk, inTransaction, kept, commits := work, false, done, commits + [done];
    }

    method Rollback()
      modifies `work, `inTransaction, `done
      ensures work == disk && !inTransaction && done == kept
    {
      work, inTransaction, done := disk, false, kept;
    }

    /** A savepoint outside a transaction opens one. */
    method OpenSavepoint() returns (sp: Savepoint)
      modifies `inTransaction
      ensures inTransaction && sp == Savepoint(work, !old(inTransaction))
    {
      sp := Savepoint(work, !inTransaction);
      inTransaction := true;
    }

    /** Releasing the savepoint that opened the transaction commits it. */
    method Release(sp: Savepoint)
      requires work == TablesOf(done)
      modifies `disk, `inTransaction, `kept, `commits
      ensures !sp.outermost ==>
                disk == old(disk) && inTransaction == old(inTransaction) && kept == old(kept) && commits == old(commits)
      ensures sp.outermost ==> disk == work && !inTransaction && kept == done && commits == old(commits) + [done]
    {
      if sp.outermost {
        Commit();
      }
    }

    // persistence.py.

    /** `_maybe_commit`. */
    method MaybeCommit()
      requires work == TablesOf(done)
      modifies `disk, `inTransaction, `kept, `commits
      ensures batchDepth == 0 ==> disk == work && !inTransaction && kept == done && commits == old(commits) + [done]
      ensures batchDepth > 0 ==>
                disk == old(disk) && inTransaction == old(inTransaction) && kept == old(kept) && commits == old(commits)
    {
      if batchDepth == 0 {
        Commit();
      }
    }

    /** What every single write does: in a batch it only acts, outside one it commits when it returns. */
    twostate predicate Did(o: Outcome)
      reads this
    {
      && Valid() && batchDepth == old(batchDepth) && done == old(done) + o.trace
      && kept == (if o.ok && batchDepth == 0 then done else old(kept))
      && commits == (if o.ok && batchDepth == 0 then old(commits) + [done] else old(commits))
    }

    /** `record_ingest`: both rows or neither, and inside a batch nothing is committed. */
    method RecordIngest(paper: Paper, row: LogRow, fault: Fault) returns (ok: bool)
      requires Valid()
      modifies `work, `disk, `inTransaction, `done, `kept, `commits
      ensures ok == fault.NoFault? && Did(Outcome(if ok then [Wrote(paper, row)] else [], ok))
      ensures work.log == if ok then old(work.log)[paper := row] else old(work.log)
      ensures work.index ==
              if ok then old(work.index)[paper := IndexRow(row.title, row.year, |row.ids|)] else old(work.index)
      ensures disk == if ok && batchDepth == 0 then work else old(disk)
    {
      hide TablesOf, After;
      if !inTransaction {
        Begin();
      }
      var sp := OpenSavepoint();
      ok := fault != AtFirst;
      if ok {
        work := work.(log := work.log[paper := row]);
        ok := fault != AtSecond;
        if ok {
          work := work.(index := work.index[paper := IndexOf(row)]);
        }
      }
      if !ok {
        work := sp.tables;
        Release(sp);
        return;
      }
      OneMoreAction(done, Wrote(paper, row));
      done := done + [Wrote(paper, row)];
      Release(sp);
      MaybeCommit();
    }

    /** `delete_ingest_events`: two statements and no savepoint; the first opens a transaction by itself. */
    method DeleteIngestEvents(paper: Paper, fault: Fault) returns (ok: bool, removed: nat)
      requires Valid()
      modifies `work, `disk, `inTransaction, `done, `kept, `commits
      ensures ok == fault.NoFault?
      ensures Did(Outcome(if ok then [Dropped(paper)] else if fault.AtSecond? then [HalfDropped(paper)] else [], ok))
      ensures work.log == if fault.AtFirst? then old(work.log) else old(work.log) - {paper}
      ensures work.index == if ok then old(work.index) - {paper} else old(work.index)
      ensures disk == if ok && batchDepth == 0 then work else old(disk)
      ensures ok ==> removed == if paper in old(work.log) then 1 else 0
    {
      hide TablesOf, After;
      removed := if paper in work.log then 1 else 0;
      inTransaction := true;
      if fault == AtFirst {
        return false, 0;
      }
      work := work.(log := work.log - {paper});
      if fault == AtSecond {
        OneMoreAction(done, HalfDropped(paper));
        done := done + [HalfDropped(paper)];
        return false, 0;
      }
      work := work.(index := work.index - {paper});
      OneMoreAction(done, Dropped(paper));
      done := done + [Dropped(paper)];
      MaybeCommit();
      ok := true;
    }

    /** `clear_ingest_log`: the same shape, over whole tables. */
    method ClearIngestLog(fault: Fault) returns (ok: bool, removed: nat)
      requires Valid()
      modifies `work, `disk, `inTransaction, `done, `kept, `commits
      ensures ok == fault.NoFault?
      ensures Did(Outcome(if ok then [Cleared] else if fault.AtSecond? then [HalfCleared] else [], ok))
      ensures work.log == if fault.AtFirst? then old(work.log) else map[]
      ensures work.index == if ok then map[] else old(work.index)
      ensures disk == if ok && batchDepth == 0 then work else old(disk)
      ensures ok ==> removed == |old(work.log)|
    {
      hide TablesOf, After;
      removed := |work.log|;
      inTransaction := true;
      if fault == AtFirst {
        return false, 0;
      }
      work := work.(log := map[]);
      if fault == AtSecond {
        OneMoreAction(done, HalfCleared);
        done := done + [HalfCleared];
        return false, 0;
      }
      work := work.(index := map[]);
      OneMoreAction(done, Cleared);
      done := done + [Cleared];
      MaybeCommit();
      ok := true;
    }

    /** Any other write path: it leaves the two tables alone, but commits what it finds pending. */
    method WriteElsewhere(fault: Fault) returns (ok: bool)
      requires Valid()
      modifies `work, `disk, `inTransaction, `done, `kept, `commits
      ensures ok == fault.NoFault? && Did(Outcome([], ok)) && work == old(work)
      ensures disk == if ok && batchDepth == 0 then work else old(disk)
    {
      hide TablesOf, After;
      inTransaction := true;
      ok := fault == NoFault;
      if ok {
        MaybeCommit();
      }
    }

    /**
     `batch_writes` around a body: inside another batch it only passes on what the body does;
     the outermost one commits once, when the body returns, and otherwise leaves what is
     committed as it was and drops whatever was not.
     */
    method BatchWrites(body: Commands) returns (ok: bool)
      requires Valid()
      modifies this
      ensures Valid() && batchDepth == old(batchDepth) && ok == InnerAll(body).ok
      ensures batchDepth > 0 ==> Did(InnerAll(body))
      ensures batchDepth == 0 ==> Effect(Now(), ok) == BatchTop(InnerAll(body), old(Now()))
      ensures batchDepth == 0 && !ok ==> work == disk == old(disk) && commits == old(commits)
      ensures batchDepth == 0 && !ok && old(done) == old(kept) ==> work == old(work)
      ensures batchDepth == 0 && ok ==> disk == work && commits == old(commits) + [done]
      ensures ok ==> done == old(done) + InnerAll(body).trace
      decreases body, 1
    {
      hide TablesOf, After;
      batchDepth := batchDepth + 1;
      ok := ExecuteAll(body);
      batchDepth := batchDepth - 1;
      if batchDepth == 0 {
        if ok {
          Commit();
        } else {
          Rollback();
        }
      }
    }

    /**
     Any nesting of batches and any failing writes: the connection goes through what the command
     means, and nothing is committed inside a batch.
     */
    method Execute(c: Command) returns (ok: bool)
      requires Valid()
      modifies this
      ensures batchDepth > 0 ==> ok == Inner(c).ok && Did(Inner(c))
      ensures batchDepth == 0 ==> Valid() && Effect(Now(), ok) == Top(c, old(Now()))
      ensures batchDepth == 0 ==> commits == old(commits) || commits == old(commits) + [kept]
      ensures batchDepth == old(batchDepth)
      decreases c, 2
    {
      hide TablesOf, After;
      match c {
        case Record(paper, row, fault) =>
          ok := RecordIngest(paper, row, fault);
        case Delete(paper, fault) =>
          ghost var removed;
          ok, removed := DeleteIngestEvents(paper, fault);
        case Clear(fault) =>
          ghost var removed;
          ok, removed := ClearIngestLog(fault);
        case OtherWrite(fault) =>
          ok := WriteElsewhere(fault);
        case Guarded(inner) =>
          var _ := Execute(inner);
          ok := true;
        case Batch(body) =>
          ok := BatchWrites(body);
      }
    }

    /** A body stops at the first exception; what it did before stays done. */
    method ExecuteAll(cs: Commands) returns (ok: bool)
      requires Valid() && batchDepth > 0
      modifies this
      ensures ok == InnerAll(cs).ok && Did(InnerAll(cs))
      decreases cs, 0
    {
      hide TablesOf, After;
      match cs {
        case Nil => ok := true;
        case Then(first, rest) =>
          ok := Execute(first);
          if ok {
            ok := ExecuteAll(rest);
          }
      }
    }

    /** Nothing was left half deleted, in what the connection sees or in any state committed from `from` on. */
    ghost predicate AllWhole(from: nat)
      reads this
    {
      Whole(done) && Whole(kept) && forall i :: from <= i < |commits| ==> Whole(commits[i])
    }

    /** Any run of commands: if each is covered, every state it commits has one index row per logged paper. */
    method Serve(commands: seq<Command>)
      requires Valid() && batchDepth == 0
      modifies this
      ensures Valid() && batchDepth == 0 && old(commits) <= commits
      ensures Whole(old(done)) && Whole(old(kept)) && (forall i :: 0 <= i < |commands| ==> Covered(commands[i])) ==>
                forall i :: old(|commits|) <= i < |commits| ==> Mirror(TablesOf(commits[i]))
    {
      hide TablesOf, After, Mirror, Whole, Covered;
      ghost var covered := Whole(done) && Whole(kept) && forall i :: 0 <= i < |commands| ==> Covered(commands[i]);
      for i := 0 to |commands|
        invariant Valid() && batchDepth == 0 && old(commits) <= commits
        invariant covered ==> AllWhole(old(|commits|))
      {
        ghost var before := Now();
        var _ := Execute(commands[i]);
        if covered {
          MirrorIsKept(commands[i], before);
        }
      }
      if covered {
        forall i | old(|commits|) <= i < |commits| ensures Mirror(TablesOf(commits[i])) {
          WholeIsMirrored(commits[i]);
        }
      }
    }
  }

  // ----- what commands mean, in tables -----

  function Listed(cs: Commands): seq<Command> {
    if cs.Nil? then [] else [cs.first] + Listed(cs.rest)
  }

  /** What the first `n` commands of an open batch did, one after the other. */
  ghost function Traces(cs: seq<Command>, n: nat): History
    requires n <= |cs|
  {
    if n == 0 then [] else Traces(cs, n - 1) + Inner(cs[n - 1]).trace
  }

  lemma {:induction false} TracesShift(c: Command, cs: seq<Command>, n: nat)
    requires n <= |cs|
    ensures Traces([c] + cs, n + 1) == Inner(c).trace + Traces(cs, n)
  {
    hide Inner;
    if n == 0 {
      assert Traces([c] + cs, 1) == Traces([c] + cs, 0) + Inner(([c] + cs)[0]).trace;
    } else {
      TracesShift(c, cs, n - 1);
      assert ([c] + cs)[n] == cs[n - 1];
    }
  }

  /** A body runs up to its first exception, which ends it; all it did until then is done. */
  lemma {:induction false} BodyStopsAtTheFirst(cs: Commands) returns (n: nat)
    ensures n <= |Listed(cs)| && InnerAll(cs).trace == Traces(Listed(cs), n)
    ensures InnerAll(cs).ok <==> forall i :: 0 <= i < |Listed(cs)| ==> Inner(Listed(cs)[i]).ok
    ensures InnerAll(cs).ok ==> n == |Listed(cs)|
    ensures !InnerAll(cs).ok ==>
              && n > 0 && !Inner(Listed(cs)[n - 1]).ok
              && forall i :: 0 <= i < n - 1 ==> Inner(Listed(cs)[i]).ok
    decreases cs
  {
    hide Inner;
    match cs
    case Nil => n := 0;
    case Then(first, rest) =>
      var all, later := Listed(cs), Listed(rest);
      assert all == [first] + later && forall i :: 0 < i < |all| ==> all[i] == later[i - 1];
      if Inner(first).ok {
        var m := BodyStopsAtTheFirst(rest);
        n := m + 1;
        TracesShift(first, later, m);
        if InnerAll(rest).ok {
        } else {
          assert !Inner(all[m]).ok;
        }
        if i :| 0 <= i < |later| && !Inner(later[i]).ok {
          assert all[i + 1] == later[i];
        }
      } else {
        n := 1;
        TracesShift(first, later, 0);
        assert !Inner(all[0]).ok;
      }
  }

  /**
   Outside a batch, on what the connection sees: a write that returns changes both tables and commits
   all that is pending; one that raises commits nothing, and leaves a deletion's first half behind.
   */
  lemma {:induction false} SingleWrite(c: Command, s: State)
    requires !c.Guarded? && !c.Batch?
    ensures var e, before := Top(c, s), TablesOf(s.done);
            var after := TablesOf(e.state.done);
            && e.ok == c.fault.NoFault? && e.state.kept == (if e.ok then e.state.done else s.kept)
            && Top(Guarded(c), s) == Effect(e.state, true)
            && match c
               case Record(p, row, _) =>
                 after == if e.ok then
                            Tables(before.log[p := row], before.index[p := IndexRow(row.title, row.year, |row.ids|)])
                          else before
               case Delete(p, fault) =>
                 after == Tables(if fault.AtFirst? then before.log else before.log - {p},
                                 if e.ok then before.index - {p} else before.index)
               case Clear(fault) =>
                 after == Tables(if fault.AtFirst? then before.log else map[], if e.ok then map[] else before.index)
               case _ => after == before
  {
    var trace := Inner(c).trace;
    assert s.done + [] == s.done;
    if trace != [] {
      OneMoreAction(s.done, trace[0]);
      assert trace == [trace[0]];
    }
    hide TablesOf, After;
  }

  // ----- the mirror, over commands -----

  /** No deletion was left half done. */
  ghost predicate Whole(h: History) {
    forall i :: 0 <= i < |h| ==> !h[i].HalfDropped? && !h[i].HalfCleared?
  }

  lemma {:induction false} WholeIsMirrored(h: History)
    requires Whole(h)
    ensures Mirror(TablesOf(h))
  {
    MirrorLostExactly(h);
  }

  /** No deletion in the command fails half way. */
  predicate NeverHalf(c: Command)
    decreases c
  {
    match c
    case Delete(_, fault) => fault != AtSecond
    case Clear(fault) => fault != AtSecond
    case Guarded(inner) => NeverHalf(inner)
    case Batch(body) => NeverHalfIn(body)
    case _ => true
  }

  predicate NeverHalfIn(cs: Commands)
    decreases cs
  {
    cs.Then? ==> NeverHalf(cs.first) && NeverHalfIn(cs.rest)
  }

  /** In an open batch: a deletion may fail half way, but then nobody swallows it. */
  predicate HalfRaises(c: Command)
    decreases c
  {
    match c
    case Guarded(inner) => NeverHalf(inner)
    case Batch(body) => HalfRaisesIn(body)
    case _ => true
  }

  predicate HalfRaisesIn(cs: Commands)
    decreases cs
  {
    cs.Then? ==> HalfRaises(cs.first) && HalfRaisesIn(cs.rest)
  }

  /** A deletion that fails half way stands in a batch, which it makes fail. */
  predicate Covered(c: Command)
    decreases c
  {
    match c
    case Guarded(inner) => Covered(inner)
    case Batch(body) => HalfRaisesIn(body)
    case _ => NeverHalf(c)
  }

  lemma {:induction false} NeverHalfIsWhole(c: Command)
    requires NeverHalf(c)
    ensures Whole(Inner(c).trace)
    decreases c
  {
    match c
    case Guarded(inner) => NeverHalfIsWhole(inner);
    case Batch(body) => NeverHalfInIsWhole(body);
    case _ =>
  }

  lemma {:induction false} NeverHalfInIsWhole(cs: Commands)
    requires NeverHalfIn(cs)
    ensures Whole(InnerAll(cs).trace)
    decreases cs
  {
    match cs
    case Nil =>
    case Then(first, rest) =>
      NeverHalfIsWhole(first);
      NeverHalfInIsWhole(rest);
  }

  lemma {:induction false} ReturnsWhole(c: Command)
    requires HalfRaises(c) && Inner(c).ok
    ensures Whole(Inner(c).trace)
    decreases c
  {
    match c
    case Guarded(inner) => NeverHalfIsWhole(inner);
    case Batch(body) => ReturnsWholeIn(body);
    case _ =>
  }

  lemma {:induction false} ReturnsWholeIn(cs: Commands)
    requires HalfRaisesIn(cs) && InnerAll(cs).ok
    ensures Whole(InnerAll(cs).trace)
    decreases cs
  {
    match cs
    case Nil =>
    case Then(first, rest) =>
      ReturnsWhole(first);
      ReturnsWholeIn(rest);
  }

  /**
   Whatever else fails, a deletion that does not fail half way, or fails half way in a batch that
   fails with it, keeps the mirror in what is committed and in what the connection sees.
   */
  lemma {:induction false} MirrorIsKept(c: Command, s: State)
    requires Covered(c) && Whole(s.done) && Whole(s.kept)
    ensures var t := Top(c, s).state;
            Whole(t.done) && Whole(t.kept) && Mirror(TablesOf(t.done)) && Mirror(TablesOf(t.kept))
    decreases c
  {
    match c {
      case Guarded(inner) => MirrorIsKept(inner, s);
      case Batch(body) =>
        if InnerAll(body).ok {
          ReturnsWholeIn(body);
        }
      case _ => NeverHalfIsWhole(c);
    }
    WholeIsMirrored(Top(c, s).state.done);
    WholeIsMirrored(Top(c, s).state.kept);
  }

  lemma {:induction false} NextWriteCommits(c: Command, s: State)
    requires c.Delete? || c.Clear?
    ensures Top(OtherWrite(NoFault), Top(Guarded(c), s).state).state.kept == s.done + Inner(c).trace
  {
    assert s.done + Inner(c).trace + [] == s.done + Inner(c).trace;
    assert Top(Guarded(c), s).state == Top(c, s).state;
  }

  /**
   Outside any batch a deletion has no such cover: the next write of any kind commits what it
   left, so the mirror is lost exactly when the second statement failed on a logged paper.
   */
  lemma {:induction false} HalfDeletionExactly(s: State, p: Paper, fault: Fault)
    requires Mirror(TablesOf(s.done))
    ensures var t := Top(OtherWrite(NoFault), Top(Guarded(Delete(p, fault)), s).state).state;
            Mirror(TablesOf(t.kept)) <==> !(fault.AtSecond? && p in TablesOf(s.done).log)
  {
    OneMoreAction(s.done, Dropped(p));
    OneMoreAction(s.done, HalfDropped(p));
    assert s.done + [] == s.done;
    var t := Top(OtherWrite(NoFault), Top(Guarded(Delete(p, fault)), s).state).state;
    NextWriteCommits(Delete(p, fault), s);
    hide After, Top;
    if fault.AtSecond? && p in TablesOf(s.done).log {
      assert Orphan(TablesOf(t.kept), p);
    }
  }

  lemma {:induction false} HalfClearExactly(s: State, fault: Fault)
    requires Mirror(TablesOf(s.done))
    ensures var t := Top(OtherWrite(NoFault), Top(Guarded(Clear(fault)), s).state).state;
            Mirror(TablesOf(t.kept)) <==> !(fault.AtSecond? && TablesOf(s.done).log != map[])
  {
    OneMoreAction(s.done, Cleared);
    OneMoreAction(s.done, HalfCleared);
    assert s.done + [] == s.done;
    var t := Top(OtherWrite(NoFault), Top(Guarded(Clear(fault)), s).state).state;
    NextWriteCommits(Clear(fault), s);
    hide After, Top;
    if fault.AtSecond? && TablesOf(s.done).log != map[] {
      var p :| p in TablesOf(s.done).log;
      assert Orphan(TablesOf(t.kept), p);
    }
  }

  /** The concrete run: a paper is logged, its deletion fails half way, and another write commits that. */
  lemma {:induction false} HalfDeletionIsCommitted(p: Paper, row: LogRow)
    ensures var s := Top(Record(p, row, NoFault), State([], [])).state;
            var t := Top(OtherWrite(NoFault), Top(Guarded(Delete(p, AtSecond)), s).state).state;
            Mirror(TablesOf(s.kept)) &&
            TablesOf(t.kept) == Tables(map[], map[p := IndexRow(row.title, row.year, |row.ids|)]) &&
            !Mirror(TablesOf(t.kept))
  {
    var w := Wrote(p, row);
    var s := Top(Record(p, row, NoFault), State([], [])).state;
    assert s == State([w], [w]) by {
      assert [] + [w] == [w];
    }
    assert TablesOf([w]) == Tables(map[p := row], map[p := IndexOf(row)]) by {
      OneMoreAction([], w);
      assert [] + [w] == [w];
    }
    OneMoreAction([w], HalfDropped(p));
    NextWriteCommits(Delete(p, AtSecond), s);
    assert map[p := row] - {p} == map[];
    hide After, Top;
    assert Orphan(Tables(map[], map[p := IndexOf(row)]), p);
  }

  // ----- the bulk ingest -----

  datatype Row = Row(paper: Paper, row: LogRow, fault: Fault)

  /** The body of a bulk ingest's batch from row `k` on: every row is written under a handler of its own. */
  function Rows(rows: seq<Row>, k: nat): Commands
    requires k <= |rows|
    decreases |rows| - k
  {
    if k == |rows| then Nil else Then(Guarded(Record(rows[k].paper, rows[k].row, rows[k].fault)), Rows(rows, k + 1))
  }

  /** The rows that go through. */
  function Good(rows: seq<Row>, k: nat): History
    requires k <= |rows|
    decreases |rows| - k
  {
    if k == |rows| then []
    else if rows[k].fault.NoFault? then [Wrote(rows[k].paper, rows[k].row)] + Good(rows, k + 1)
    else Good(rows, k + 1)
  }

  lemma {:induction false} GoodRowsAreWritten(rows: seq<Row>, k: nat)
    requires k <= |rows|
    ensures InnerAll(Rows(rows, k)) == Outcome(Good(rows, k), true)
    decreases |rows| - k
  {
    if k == |rows| {
    } else {
      GoodRowsAreWritten(rows, k + 1);
      assert Inner(Guarded(Record(rows[k].paper, rows[k].row, rows[k].fault))).trace
          == if rows[k].fault.NoFault? then [Wrote(rows[k].paper, rows[k].row)] else [];
    }
  }

  /** A failed row leaves no trace, and every other row of its batch is committed. */
  lemma {:induction false} OtherRowsSurvive(rows: seq<Row>, s: State)
    ensures var done := s.done + Good(rows, 0); Top(Batch(Rows(rows, 0)), s) == Effect(State(done, done), true)
  {
    GoodRowsAreWritten(rows, 0);
  }

  /** Row `i` went through, and no later row of its paper did. */
  predicate IsLastGood(rows: seq<Row>, i: nat) {
    && i < |rows| && rows[i].fault.NoFault?
    && forall j :: i < j < |rows| && rows[j].paper == rows[i].paper ==> !rows[j].fault.NoFault?
  }

  lemma {:induction false} OtherPapersAreUntouched(h: History, rows: seq<Row>, k: nat, p: Paper)
    requires k <= |rows|
    requires forall j :: k <= j < |rows| && rows[j].paper == p ==> !rows[j].fault.NoFault?
    ensures var t := TablesOf(h + Good(rows, k));
            && (p in t.log <==> p in TablesOf(h).log) && (p in t.log ==> t.log[p] == TablesOf(h).log[p])
    decreases |rows| - k
  {
    hide After, TablesOf;
    if k == |rows| {
      assert h + [] == h;
    } else if rows[k].fault.NoFault? {
      var w := Wrote(rows[k].paper, rows[k].row);
      OneMoreAction(h, w);
      OtherPapersAreUntouched(h + [w], rows, k + 1, p);
      assert h + [w] + Good(rows, k + 1) == h + Good(rows, k);
    } else {
      OtherPapersAreUntouched(h, rows, k + 1, p);
    }
  }

  /** The row of a paper that went through last is the one kept. */
  lemma {:induction false} LastGoodRowWins(h: History, rows: seq<Row>, k: nat, i: nat)
    requires k <= i && IsLastGood(rows, i)
    ensures var t := TablesOf(h + Good(rows, k)); rows[i].paper in t.log && t.log[rows[i].paper] == rows[i].row
    decreases |rows| - k
  {
    hide After, TablesOf;
    if rows[k].fault.NoFault? {
      var w := Wrote(rows[k].paper, rows[k].row);
      OneMoreAction(h, w);
      if k == i {
        OtherPapersAreUntouched(h + [w], rows, k + 1, rows[i].paper);
      } else {
        LastGoodRowWins(h + [w], rows, k + 1, i);
      }
      assert h + [w] + Good(rows, k + 1) == h + Good(rows, k);
    } else {
      LastGoodRowWins(h, rows, k + 1, i);
    }
  }

  // ----- when batches are atomic -----

  /** What a command would do inside an open batch if every batch took effect whole or not at all. */
  ghost function IdealInner(c: Command): Outcome
    decreases c
  {
    match c
    case Guarded(inner) => Outcome(IdealInner(inner).trace, true)
    case Batch(body) => if IdealAll(body).ok then IdealAll(body) else Outcome([], false)
    case _ => Inner(c)
  }

  ghost function IdealAll(cs: Commands): Outcome
    decreases cs
  {
    match cs
    case Nil => Outcome([], true)
    case Then(first, rest) =>
      var o := IdealInner(first);
      if o.ok then Outcome(o.trace + IdealAll(rest).trace, IdealAll(rest).ok) else o
  }

  ghost function IdealTop(c: Command, s: State): Effect
    decreases c
  {
    match c
    case Guarded(inner) => Effect(IdealTop(inner, s).state, true)
    case Batch(body) => BatchTop(IdealAll(body), s)
    case _ => Top(c, s)
  }

  /** The same code with no fault in it: commands with the same `Healthy` differ in what fails only. */
  function Healthy(c: Command): Command
    decreases c
  {
    match c
    case Record(p, row, _) => Record(p, row, NoFault)
    case Delete(p, _) => Delete(p, NoFault)
    case Clear(_) => Clear(NoFault)
    case OtherWrite(_) => OtherWrite(NoFault)
    case Guarded(inner) => Guarded(Healthy(inner))
    case Batch(body) => Batch(HealthyAll(body))
  }

  function HealthyAll(cs: Commands): Commands
    decreases cs
  {
    match cs
    case Nil => Nil
    case Then(first, rest) => Then(Healthy(first), HealthyAll(rest))
  }

  predicate MayRaise(c: Command)
    decreases c
  {
    !c.Guarded? && (c.Batch? ==> MayRaiseIn(c.body))
  }

  predicate MayRaiseIn(cs: Commands)
    decreases cs
  {
    cs.Then? && (MayRaise(cs.first) || MayRaiseIn(cs.rest))
  }

  predicate MayWrite(c: Command)
    decreases c
  {
    match c
    case OtherWrite(_) => false
    case Guarded(inner) => MayWrite(inner)
    case Batch(body) => MayWriteIn(body)
    case _ => true
  }

  predicate MayWriteIn(cs: Commands)
    decreases cs
  {
    cs.Then? && (MayWrite(cs.first) || MayWriteIn(cs.rest))
  }

  /** May raise with something written: a deletion, or a write that a step which may raise follows. */
  predicate MayLeave(c: Command)
    decreases c
  {
    c.Delete? || c.Clear? || (c.Batch? && MayLeaveIn(c.body))
  }

  predicate MayLeaveIn(cs: Commands)
    decreases cs
  {
    cs.Then? && (MayLeave(cs.first) || (MayWrite(cs.first) && MayRaiseIn(cs.rest)) || MayLeaveIn(cs.rest))
  }

  /** No nested batch whose exceptions are swallowed may leave something written. */
  predicate SafeInner(c: Command)
    decreases c
  {
    match c
    case Guarded(inner) => SafeInner(inner) && !(inner.Batch? && MayLeave(inner))
    case Batch(body) => SafeAll(body)
    case _ => true
  }

  predicate SafeAll(cs: Commands)
    decreases cs
  {
    cs.Then? ==> SafeInner(cs.first) && SafeAll(cs.rest)
  }

  predicate SafeTop(c: Command)
    decreases c
  {
    match c
    case Guarded(inner) => SafeTop(inner)
    case Batch(body) => SafeAll(body)
    case _ => true
  }

  // What the conditions mean for one run.

  lemma {:induction false} NothingLeft(c: Command)
    requires !MayLeave(c) && !Inner(c).ok
    ensures Inner(c).trace == []
    decreases c
  {
    if c.Batch? {
      NothingLeftIn(c.body);
    }
  }

  lemma {:induction false} NothingLeftIn(cs: Commands)
    requires !MayLeaveIn(cs) && !InnerAll(cs).ok
    ensures InnerAll(cs).trace == []
    decreases cs
  {
    match cs
    case Nil =>
    case Then(first, rest) =>
      if Inner(first).ok {
        CannotRaise(rest);
        NothingLeftIn(rest);
        CannotWrite(first);
      } else {
        NothingLeft(first);
      }
  }

  lemma {:induction false} CannotRaise(cs: Commands)
    requires !InnerAll(cs).ok
    ensures MayRaiseIn(cs)
    decreases cs
  {
    match cs
    case Nil =>
    case Then(first, rest) =>
      if !Inner(first).ok {
        if first.Batch? {
          CannotRaise(first.body);
        }
      } else {
        CannotRaise(rest);
      }
  }

  lemma {:induction false} CannotWrite(c: Command)
    requires !MayWrite(c)
    ensures Inner(c).trace == []
    decreases c
  {
    match c
    case Guarded(inner) => CannotWrite(inner);
    case Batch(body) => CannotWriteIn(body);
    case _ =>
  }

  lemma {:induction false} CannotWriteIn(cs: Commands)
    requires !MayWriteIn(cs)
    ensures InnerAll(cs).trace == []
    decreases cs
  {
    match cs
    case Nil =>
    case Then(first, rest) =>
      CannotWrite(first);
      CannotWriteIn(rest);
  }

  /** A safe command that returns has done what atomic batches would have done, and raises when they would. */
  lemma {:induction false} SafeIsIdeal(c: Command)
    requires SafeInner(c)
    ensures IdealInner(c).ok == Inner(c).ok
    ensures Inner(c).ok || !c.Batch? || !MayLeave(c) ==> IdealInner(c) == Inner(c)
    decreases c
  {
    match c
    case Guarded(inner) =>
      SafeIsIdeal(inner);
    case Batch(body) =>
      SafeAllIsIdeal(body);
      if !Inner(c).ok && !MayLeave(c) {
        NothingLeft(c);
      }
    case _ =>
  }

  lemma {:induction false} SafeAllIsIdeal(cs: Commands)
    requires SafeAll(cs)
    ensures IdealAll(cs).ok == InnerAll(cs).ok
    ensures InnerAll(cs).ok ==> IdealAll(cs) == InnerAll(cs)
    decreases cs
  {
    match cs
    case Nil =>
    case Then(first, rest) =>
      SafeIsIdeal(first);
      SafeAllIsIdeal(rest);
  }

  lemma {:induction false} SafeTopIsIdeal(c: Command, s: State)
    requires SafeTop(c)
    ensures Top(c, s) == IdealTop(c, s)
    decreases c
  {
    match c
    case Guarded(inner) => SafeTopIsIdeal(inner, s);
    case Batch(body) => SafeAllIsIdeal(body);
    case _ =>
  }

  // The conditions look at the code, not at what fails.

  lemma {:induction false} HealthyMeansTheSame(c: Command)
    ensures MayRaise(Healthy(c)) == MayRaise(c) && MayWrite(Healthy(c)) == MayWrite(c)
    ensures MayLeave(Healthy(c)) == MayLeave(c) && SafeInner(Healthy(c)) == SafeInner(c)
    decreases c
  {
    match c
    case Guarded(inner) => HealthyMeansTheSame(inner);
    case Batch(body) => HealthyAllMeansTheSame(body);
    case _ =>
  }

  lemma {:induction false} HealthyAllMeansTheSame(cs: Commands)
    ensures MayRaiseIn(HealthyAll(cs)) == MayRaiseIn(cs) && MayWriteIn(HealthyAll(cs)) == MayWriteIn(cs)
    ensures MayLeaveIn(HealthyAll(cs)) == MayLeaveIn(cs) && SafeAll(HealthyAll(cs)) == SafeAll(cs)
    decreases cs
  {
    match cs
    case Nil =>
    case Then(first, rest) =>
      HealthyMeansTheSame(first);
      HealthyAllMeansTheSame(rest);
  }

  lemma {:induction false} HealthySafeTop(c: Command)
    ensures SafeTop(Healthy(c)) == SafeTop(c)
    decreases c
  {
    match c
    case Guarded(inner) => HealthySafeTop(inner);
    case Batch(body) => HealthyAllMeansTheSame(body);
    case _ =>
  }

  lemma {:induction false} HealthyRuns(c: Command)
    ensures Healthy(Healthy(c)) == Healthy(c)
    ensures Inner(Healthy(c)).ok && IdealInner(Healthy(c)) == Inner(Healthy(c))
    ensures MayWrite(c) ==> Inner(Healthy(c)).trace != []
    decreases c
  {
    match c
    case Guarded(inner) => HealthyRuns(inner);
    case Batch(body) => HealthyAllRuns(body);
    case _ =>
  }

  lemma {:induction false} HealthyAllRuns(cs: Commands)
    ensures HealthyAll(HealthyAll(cs)) == HealthyAll(cs)
    ensures InnerAll(HealthyAll(cs)).ok && IdealAll(HealthyAll(cs)) == InnerAll(HealthyAll(cs))
    ensures MayWriteIn(cs) ==> InnerAll(HealthyAll(cs)).trace != []
    decreases cs
  {
    match cs
    case Nil =>
    case Then(first, rest) =>
      HealthyRuns(first);
      HealthyAllRuns(rest);
  }

  // The converse: code that is not safe has faults under which half a batch stays.

  /** Faults that make the body raise. */
  lemma {:induction false} MakeRaise(cs: Commands) returns (bad: Commands)
    requires MayRaiseIn(cs)
    ensures HealthyAll(bad) == HealthyAll(cs) && !InnerAll(bad).ok
    decreases cs
  {
    var Then(first, rest) := cs;
    HealthyRuns(first);
    if MayRaise(first) {
      var f;
      match first {
        case Record(p, row, _) => f := Record(p, row, AtFirst);
        case Delete(p, _) => f := Delete(p, AtFirst);
        case Clear(_) => f := Clear(AtFirst);
        case OtherWrite(_) => f := OtherWrite(AtFirst);
        case Batch(body) =>
          var b := MakeRaise(body);
          f := Batch(b);
      }
      bad := Then(f, rest);
    } else {
      var b := MakeRaise(rest);
      bad := Then(Healthy(first), b);
    }
  }

  /** Faults that make the body raise with something written. */
  lemma {:induction false} MakeLeave(cs: Commands) returns (bad: Commands)
    requires MayLeaveIn(cs)
    ensures HealthyAll(bad) == HealthyAll(cs) && !InnerAll(bad).ok && InnerAll(bad).trace != []
    decreases cs
  {
    var Then(first, rest) := cs;
    HealthyRuns(first);
    if MayLeave(first) {
      var f;
      match first {
        case Delete(p, _) => f := Delete(p, AtSecond);
        case Clear(_) => f := Clear(AtSecond);
        case Batch(body) =>
          var b := MakeLeave(body);
          f := Batch(b);
      }
      bad := Then(f, rest);
    } else {
      var b;
      if MayLeaveIn(rest) {
        b := MakeLeave(rest);
      } else {
        b := MakeRaise(rest);
      }
      bad := Then(Healthy(first), b);
    }
  }

  /** Faults under which the command returns with more done than atomic batches would have. */
  lemma {:induction false} MakeTear(c: Command) returns (bad: Command)
    requires !SafeInner(c)
    ensures Healthy(bad) == Healthy(c) && Inner(bad).ok && IdealInner(bad).ok
    ensures |IdealInner(bad).trace| < |Inner(bad).trace|
    decreases c
  {
    match c
    case Guarded(inner) =>
      if inner.Batch? && MayLeave(inner) {
        var b := MakeLeave(inner.body);
        IdealRaises(b);
        bad := Guarded(Batch(b));
      } else {
        var b := MakeTear(inner);
        bad := Guarded(b);
      }
    case Batch(body) =>
      var b := MakeTearIn(body);
      bad := Batch(b);
  }

  lemma {:induction false} MakeTearIn(cs: Commands) returns (bad: Commands)
    requires !SafeAll(cs)
    ensures HealthyAll(bad) == HealthyAll(cs) && InnerAll(bad).ok && IdealAll(bad).ok
    ensures |IdealAll(bad).trace| < |InnerAll(bad).trace|
    decreases cs
  {
    var Then(first, rest) := cs;
    if !SafeInner(first) {
      var f := MakeTear(first);
      HealthyAllRuns(rest);
      bad := Then(f, HealthyAll(rest));
    } else {
      HealthyRuns(first);
      var b := MakeTearIn(rest);
      bad := Then(Healthy(first), b);
    }
  }

  lemma {:induction false} IdealRaises(cs: Commands)
    ensures IdealAll(cs).ok == InnerAll(cs).ok
    decreases cs
  {
    match cs
    case Nil =>
    case Then(first, rest) =>
      if first.Batch? {
        IdealRaises(first.body);
      }
      IdealRaises(rest);
  }

  lemma {:induction false} MakeTearTop(c: Command) returns (bad: Command)
    requires !SafeTop(c)
    ensures Healthy(bad) == Healthy(c) && Top(bad, State([], [])).state != IdealTop(bad, State([], [])).state
    decreases c
  {
    match c
    case Guarded(inner) =>
      var b := MakeTearTop(inner);
      bad := Guarded(b);
    case Batch(body) =>
      var b := MakeTearIn(body);
      bad := Batch(b);
      assert IdealTop(bad, State([], [])).state.done == [] + IdealAll(b).trace;
      assert Top(bad, State([], [])).state.done == [] + InnerAll(b).trace;
  }

  /**
   Exactly which code has atomic batches, whatever fails: that in which no nested batch with a
   swallowed exception may raise after a write.
   */
  lemma {:induction false} AtomicExactly(c: Command)
    ensures (forall d: Command, s: State :: Healthy(d) == Healthy(c) ==> Top(d, s) == IdealTop(d, s)) <==> SafeTop(c)
  {
    if SafeTop(c) {
      forall d: Command, s: State | Healthy(d) == Healthy(c) ensures Top(d, s) == IdealTop(d, s) {
        HealthySafeTop(c);
        HealthySafeTop(d);
        SafeTopIsIdeal(d, s);
      }
    } else {
      var bad := MakeTearTop(c);
    }
  }

  /** The smallest batch that is kept in half: its first row stays although its second failed. */
  lemma {:induction false} SwallowedInnerBatchIsKept(p: Paper, row: LogRow)
    ensures var c := Batch(Then(Guarded(Batch(Then(Record(p, row, NoFault), Then(OtherWrite(AtFirst), Nil)))), Nil));
            && Top(c, State([], [])) == Effect(State([Wrote(p, row)], [Wrote(p, row)]), true)
            && IdealTop(c, State([], [])) == Effect(State([], []), true) && !SafeTop(c)
  {
    var end := Then(OtherWrite(AtFirst), Nil);
    var inner := Then(Record(p, row, NoFault), end);
    assert MayRaiseIn(end) && !InnerAll(end).ok && InnerAll(end).trace == [] && IdealAll(end) == InnerAll(end);
    assert InnerAll(inner) == Outcome([Wrote(p, row)], false);
    assert !IdealAll(inner).ok && MayLeaveIn(inner);
    var guarded := Guarded(Batch(inner));
    assert MayLeave(Batch(inner)) && !SafeInner(guarded);
    assert Inner(guarded) == Outcome([Wrote(p, row)], true) && IdealInner(guarded) == Outcome([], true);
    var c := Then(guarded, Nil);
    assert !SafeAll(c);
    assert InnerAll(c) == Outcome([Wrote(p, row)] + InnerAll(Nil).trace, true);
    assert IdealAll(c) == Outcome([] + IdealAll(Nil).trace, true);
  }
}
