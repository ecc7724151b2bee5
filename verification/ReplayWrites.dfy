/** Pass 2 of replay: executing a plan with inserts batched per page. */
module ReplayWrites {
  import opened Records
  import opened Planner
  import opened Execution
  import opened Composition
  import opened History
  import opened Retention
  import opened Sources
  import opened Replication
  import opened Database
  import opened ReplayRun

  function Creates(n: nat): seq<Disposition> {
    seq(n, i => ApplyCreate)
  }

  function BatchOf(es: seq<Event>): seq<(Id, Rec)> {
    seq(|es|, i requires 0 <= i < |es| => (es[i].id, es[i].rec))
  }

  function MarkAll(marks: map<Id, Mark>, es: seq<Event>, src: Identity): map<Id, Mark> {
    if es == [] then marks
    else var e := es[|es| - 1]; MarkAll(marks, es[..|es| - 1], src)[e.id := MarkOf(e, src)]
  }

  lemma CreatesSnoc(n: nat)
    ensures Creates(n + 1) == Creates(n) + [ApplyCreate]
  {
  }

  lemma BatchSnoc(rows: map<Id, Rec>, past: seq<Event>, e: Event)
    ensures InsertAll(rows, BatchOf(past + [e])) == InsertIgnore(InsertAll(rows, BatchOf(past)), e.id, e.rec)
    ensures Inserted(rows, BatchOf(past + [e])) ==
            Inserted(rows, BatchOf(past)) + if Collides(InsertAll(rows, BatchOf(past)), e.id, e.rec) then 0 else 1
  {
    var batch := BatchOf(past + [e]);
    assert batch[..|past|] == BatchOf(past) && batch[|past|] == (e.id, e.rec);
  }

  lemma LandsSnoc(db: DB, past: seq<Event>, ds: seq<Disposition>, e: Event, d: Disposition, src: Identity)
    requires |past| == |ds|
    ensures LandsAll(db, past + [e], ds + [d], src) <==> LandsAll(db, past, ds, src) && Lands(ApplyAll(db, past, ds, src), e, d)
    ensures ApplyAll(db, past + [e], ds + [d], src) == ApplyOne(ApplyAll(db, past, ds, src), e, d, src)
  {
    assert (past + [e])[..|past|] == past && (ds + [d])[..|past|] == ds;
  }

  lemma MarkSnoc(marks: map<Id, Mark>, past: seq<Event>, e: Event, src: Identity)
    ensures MarkAll(marks, past + [e], src) == MarkAll(marks, past, src)[e.id := MarkOf(e, src)]
  {
    assert (past + [e])[..|past|] == past;
  }

  /** Creates that all land insert every row of the batch and set every watermark. */
  lemma {:induction false} FlushIsCreates(db: DB, es: seq<Event>, src: Identity)
    requires LandsAll(db, es, Creates(|es|), src)
    ensures var rows := InsertAll(db.rows, BatchOf(es));
            ApplyAll(db, es, Creates(|es|), src) == DB(rows, db.tombs, MarkAll(db.marks, es, src)) &&
            Inserted(db.rows, BatchOf(es)) == |es| && (forall e <- es :: e.id in rows)
  {
    if es != [] {
      var past, e := Snoc(es);
      CreatesSnoc(|past|);
      LandsSnoc(db, past, Creates(|past|), e, ApplyCreate, src);
      FlushIsCreates(db, past, src);
      BatchSnoc(db.rows, past, e);
      MarkSnoc(db.marks, past, e, src);
    }
  }

  /** Insert the pending creates and set the watermarks of those present. */
  method FlushCreated(target: MemoryDB, pending: seq<Event>, src: Identity) returns (inserted: int)
    requires UniqueRows(target.rows) && LandsAll(target.Data(), pending, Creates(|pending|), src)
    modifies target`rows, target`marks
    ensures UniqueRows(target.rows) && inserted == |pending|
    ensures target.Data() == ApplyAll(old(target.Data()), pending, Creates(|pending|), src)
  {
    FlushIsCreates(target.Data(), pending, src);
    inserted := target.InsertManyIgnore(BatchOf(pending));
    var present := target.GetMemories(set e | e in pending :: e.id);
    forall e | e in pending ensures e.id in present {}
    MarkPresent(target, pending, present, src);
  }

  method MarkPresent(target: MemoryDB, pending: seq<Event>, present: map<Id, Rec>, src: Identity)
    requires forall e <- pending :: e.id in present
    modifies target`marks
    ensures target.marks == MarkAll(old(target.marks), pending, src)
  {
    for i := 0 to |pending|
      invariant target.marks == MarkAll(old(target.marks), pending[..i], src)
    {
      var e := pending[i];
      assert pending[..i + 1][..i] == pending[..i];
      assert e in pending;
      if e.id in present {
        target.SetReplayWatermark(e.id, MarkOf(e, src));
      }
    }
    assert pending[..|pending|] == pending;
  }

  /** What a plan guarantees about one of its steps on the tables it meets. */
  ghost predicate Sound(db: DB, e: Event, d: Disposition, src: Identity) {
    Lands(db, e, d) && UniqueRows(db.rows) && UniqueRows(ApplyOne(db, e, d, src).rows) && (d.SkipDeduped? ==> e.id !in db.rows)
  }

  ghost predicate SoundAll(db: DB, es: seq<Event>, ds: seq<Disposition>, src: Identity) {
    |es| == |ds| &&
    forall k {:trigger Position(k)} :: 0 <= k < |es| && Position(k) ==> Sound(ApplyAll(db, es[..k], ds[..k], src), es[k], ds[k], src)
  }

  lemma {:induction false} PlansAreSound(es: seq<Event>, src: Identity, scope: set<EventType>, v: View, db: DB)
    requires Persistent(src) && Coherent(v, db)
    requires PlanAll(es, src, scope, v).Planned?
    ensures SoundAll(db, es, PlanAll(es, src, scope, v).ds, src)
  {
    if es != [] {
      var n := |es| - 1;
      var q, p := PlanAll(es[..n], src, scope, v), PlanAll(es, src, scope, v);
      PlansAreSound(es[..n], src, scope, v, db);
      PlanningIsExact(es[..n], src, scope, v, db);
      assert p.ds[..n] == q.ds;
      PlannedStepIsSound(q.view, ApplyAll(db, es[..n], q.ds, src), es[n], src, scope, p.ds[n]);
      forall k | 0 <= k < |es| ensures Sound(ApplyAll(db, es[..k], p.ds[..k], src), es[k], p.ds[k], src) {
        if k < n {
          assert Position(k);
          assert es[..n][..k] == es[..k] && q.ds[..k] == p.ds[..k] && es[..n][k] == es[k] && q.ds[k] == p.ds[k];
        }
      }
    }
  }

  lemma PlannedStepIsSound(v: View, db: DB, e: Event, src: Identity, scope: set<EventType>, d: Disposition)
    requires Persistent(src) && Coherent(v, db) && Disposed(e, src, scope, v) == Ok(d)
    ensures Sound(db, e, d, src)
  {
    StepIsExact(v, db, e, src, scope, d);
    CoherentRowsAreUnique(v, db);
    CoherentRowsAreUnique(Effect(v, e, d, src), ApplyOne(db, e, d, src));
    if d.SkipDeduped? { ChangesAreAdmitted(v, e, src, scope, d); }
  }

  /** The target with its pending creates stands where executing one at a time would stand. */
  ghost predicate Caught(now: DB, pending: seq<Event>, want: DB, src: Identity) {
    UniqueRows(now.rows) && LandsAll(now, pending, Creates(|pending|), src) &&
    ApplyAll(now, pending, Creates(|pending|), src) == want
  }

  lemma PendingOne(now: DB, pending: seq<Event>, want: DB, e: Event, src: Identity)
    requires Caught(now, pending, want, src) && Lands(want, e, ApplyCreate)
    ensures Caught(now, pending + [e], ApplyOne(want, e, ApplyCreate, src), src)
  {
    assert (pending + [e])[..|pending|] == pending;
    assert Creates(|pending| + 1)[..|pending|] == Creates(|pending|);
  }

  lemma NothingPending(now: DB, src: Identity)
    requires UniqueRows(now.rows)
    ensures Caught(now, [], now, src)
  {
  }

  function WithMark(db: DB, m: Id, x: Mark): DB {
    db.(marks := db.marks[m := x])
  }

  lemma CreatePastMark(db: DB, e: Event, src: Identity, m: Id, x: Mark)
    requires Lands(db, e, ApplyCreate) && e.id != m
    ensures Lands(WithMark(db, m, x), e, ApplyCreate)
    ensures ApplyOne(WithMark(db, m, x), e, ApplyCreate, src) == WithMark(ApplyOne(db, e, ApplyCreate, src), m, x)
  {
  }

  /** Setting the watermark of an id that is not pending commutes with the pending creates. */
  lemma {:induction false} MarkPastPending(now: DB, pending: seq<Event>, src: Identity, m: Id, x: Mark)
    requires LandsAll(now, pending, Creates(|pending|), src)
    requires m !in ApplyAll(now, pending, Creates(|pending|), src).rows
    ensures LandsAll(WithMark(now, m, x), pending, Creates(|pending|), src)
    ensures ApplyAll(WithMark(now, m, x), pending, Creates(|pending|), src) ==
            WithMark(ApplyAll(now, pending, Creates(|pending|), src), m, x)
  {
    if pending != [] {
      var n := |pending| - 1;
      assert Creates(|pending|)[..n] == Creates(n);
      var before := ApplyAll(now, pending[..n], Creates(n), src);
      assert ApplyAll(now, pending, Creates(|pending|), src) == ApplyOne(before, pending[n], ApplyCreate, src);
      MarkPastPending(now, pending[..n], src, m, x);
      CreatePastMark(before, pending[n], src, m, x);
    }
  }

  function Applied(ds: seq<Disposition>): nat {
    if ds == [] then 0 else Applied(ds[..|ds| - 1]) + if IsApply(ds[|ds| - 1]) then 1 else 0
  }

  predicate IsSkip(d: Disposition) {
    d.SkipIdempotent? || d.SkipDeduped?
  }

  function Skipped(ds: seq<Disposition>): nat {
    if ds == [] then 0 else Skipped(ds[..|ds| - 1]) + if IsSkip(ds[|ds| - 1]) then 1 else 0
  }

  function Observations(ds: seq<Disposition>): nat {
    if ds == [] then 0 else Observations(ds[..|ds| - 1]) + if ds[|ds| - 1].Observed? then 1 else 0
  }

  lemma {:induction false} CountsAddUp(ds: seq<Disposition>)
    ensures Applied(ds) + Skipped(ds) + Observations(ds) == |ds|
  {
    if ds != [] { CountsAddUp(ds[..|ds| - 1]); }
  }

  /** Execute one planned event: creates wait, updates and deletes flush first. */
  method ExecuteEvent(target: MemoryDB, pending: seq<Event>, e: Event, d: Disposition, src: Identity, ghost want: DB)
      returns (pending': seq<Event>, applied: int, skipped: int)
    requires Caught(target.Data(), pending, want, src) && Sound(want, e, d, src)
    modifies target`rows, target`tombs, target`marks
    ensures Caught(target.Data(), pending', ApplyOne(want, e, d, src), src)
    ensures applied + |pending'| == |pending| + (if IsApply(d) then 1 else 0)
    ensures skipped == if IsSkip(d) then 1 else 0
  {
    pending', applied, skipped := pending, 0, 0;
    match d {
      case Observed =>
      case SkipIdempotent => skipped := 1;
      case SkipDeduped =>
        skipped := 1;
        MarkPastPending(target.Data(), pending, src, e.id, MarkOf(e, src).(fp := ""));
        target.SetReplayWatermark(e.id, MarkOf(e, src).(fp := ""));
      case ApplyCreate =>
        PendingOne(target.Data(), pending, want, e, src);
        pending' := pending + [e];
      case ApplyUpdate =>
        applied := FlushCreated(target, pending, src);
        pending' := [];
        assert target.Data() == want;
        var done := ExecuteUpdate(target, e, src, want);
        applied := applied + done;
        NothingPending(target.Data(), src);
      case ApplyDelete =>
        applied := FlushCreated(target, pending, src);
        pending' := [];
        assert target.Data() == want;
        var kept := if e.id in target.rows then target.rows[e.id].content else "";
        var deleted := target.DeleteMemoryRow(e.id);
        target.DeleteReplayWatermark(e.id);
        target.RecordTombstone(e.id, TombOf(e, kept));
        applied, skipped := applied + (if deleted then 1 else 0), if deleted then 0 else 1;
        NothingPending(target.Data(), src);
    }
  }

  /** The update of pass 2: its row is there and the unique index does not object. */
  method ExecuteUpdate(target: MemoryDB, e: Event, src: Identity, ghost want: DB) returns (done: int)
    requires target.Data() == want && Sound(want, e, ApplyUpdate, src)
    modifies target`rows, target`marks
    ensures target.Data() == ApplyOne(want, e, ApplyUpdate, src) && UniqueRows(target.rows) && done == 1
  {
    forall m | m in want.rows && m != e.id && Holder(want.rows, e.rec.ns, e.rec.chash, m) ensures e.rec.chash == "" {
      var after := want.rows[e.id := e.rec];
      assert after[m].chash == after[e.id].chash && after[m].ns == after[e.id].ns;
    }
    var res := target.ReplaceMemoryRecord(e.id, e.rec);
    done := 0;
    if res.RowReplaced? {
      done := 1;
      target.SetReplayWatermark(e.id, MarkOf(e, src));
    }
  }

  /** Pass 2 has executed the first `k` events of the window, `pending` of them not yet written,
      and counted `applied` and `skipped`. */
  ghost predicate Executed(now: DB, pending: seq<Event>, k: nat, win: seq<Event>, ds: seq<Disposition>, db0: DB, src: Identity,
                           applied: int, skipped: int)
  {
    && k <= |win| == |ds| && Caught(now, pending, ApplyAll(db0, win[..k], ds[..k], src), src)
    && applied + |pending| == Applied(ds[..k]) && skipped == Skipped(ds[..k])
  }

  /** Execute the next event of the window and count it. */
  method ExecuteNext(target: MemoryDB, pending: seq<Event>, e: Event, d: Disposition, src: Identity, a0: int, s0: int,
                     ghost k: nat, ghost win: seq<Event>, ghost ds: seq<Disposition>, ghost db0: DB)
      returns (pending': seq<Event>, applied: int, skipped: int)
    requires k < |win| == |ds| && SoundAll(db0, win, ds, src) && e == win[k] && d == ds[k]
    requires Executed(target.Data(), pending, k, win, ds, db0, src, a0, s0)
    modifies target`rows, target`tombs, target`marks
    ensures Executed(target.Data(), pending', k + 1, win, ds, db0, src, applied, skipped)
  {
    assert win[..k + 1][..k] == win[..k] && ds[..k + 1][..k] == ds[..k];
    assert Position(k);
    var a, s;
    pending', a, s := ExecuteEvent(target, pending, e, d, src, ApplyAll(db0, win[..k], ds[..k], src));
    applied, skipped := a0 + a, s0 + s;
  }

  /** Write what is pending at the end of a page. */
  method FlushPage(target: MemoryDB, pending: seq<Event>, src: Identity, a0: int, ghost s0: int,
                   ghost k: nat, ghost win: seq<Event>, ghost ds: seq<Disposition>, ghost db0: DB)
      returns (applied: int)
    requires Executed(target.Data(), pending, k, win, ds, db0, src, a0, s0)
    modifies target`rows, target`marks
    ensures Executed(target.Data(), [], k, win, ds, db0, src, applied, s0)
  {
    var inserted := FlushCreated(target, pending, src);
    NothingPending(target.Data(), src);
    applied := a0 + inserted;
  }

  /** The window is the first part of what is in scope, and all of it when nothing bounds it. */
  ghost predicate Spans(win: seq<Event>, all: seq<Event>, scan: Scan, bounded: bool) {
    && |win| <= |all| && win == all[..|win|] && ((!bounded || win == []) ==> win == all)
    && (win != [] ==> scan.last == win[|win| - 1].seqNo)
    && forall i, j :: 0 <= i < j < |all| ==> all[i].seqNo < all[j].seqNo
  }

  /** Whether the next event in scope belongs to the window shows in its sequence number. */
  lemma InWindow(win: seq<Event>, all: seq<Event>, scan: Scan, bounded: bool, k: nat)
    requires Spans(win, all, scan, bounded) && k <= |win| && k < |all|
    ensures if bounded && all[k].seqNo > scan.last then k == |win| || win == [] else k < |win| && win[k] == all[k]
  {
    if k < |win| { assert all[k].seqNo <= all[|win| - 1].seqNo; }
    if k == |win| && win != [] { assert all[|win| - 1].seqNo < all[k].seqNo; }
  }

  /** An event of a page: it closes the window, or it is executed. */
  method ExecuteOrStop(target: MemoryDB, pending: seq<Event>, e: Event, scan: Scan, bounded: bool, src: Identity, a0: int, s0: int,
                       ghost k: nat, ghost win: seq<Event>, ghost ds: seq<Disposition>, ghost all: seq<Event>, ghost db0: DB)
      returns (pending': seq<Event>, applied: int, skipped: int, stop: bool, ghost k': nat)
    requires Spans(win, all, scan, bounded) && Recorded(scan.plan, win, ds) && SoundAll(db0, win, ds, src)
    requires k < |all| && e == all[k] && Executed(target.Data(), pending, k, win, ds, db0, src, a0, s0)
    modifies target`rows, target`tombs, target`marks
    ensures Executed(target.Data(), pending', k', win, ds, db0, src, applied, skipped)
    ensures if stop then k' == k == |win| else k' == k + 1 <= |win|
  {
    InWindow(win, all, scan, bounded, k);
    if bounded && e.seqNo > scan.last { return pending, a0, s0, true, k; }
    assert Position(k);
    var d := if e.seqNo in scan.plan then scan.plan[e.seqNo] else Observed;
    stop, k' := false, k + 1;
    pending', applied, skipped := ExecuteNext(target, pending, e, d, src, a0, s0, k, win, ds, db0);
  }

  /** The events of a page that belong to the window, one after the other. */
  method ExecuteEvents(target: MemoryDB, page: seq<Event>, scan: Scan, bounded: bool, src: Identity, a0: int, s0: int,
                       ghost k0: nat, ghost win: seq<Event>, ghost ds: seq<Disposition>, ghost all: seq<Event>, ghost db0: DB)
      returns (pending: seq<Event>, applied: int, skipped: int, stop: bool, ghost k: nat)
    requires Spans(win, all, scan, bounded) && Recorded(scan.plan, win, ds) && SoundAll(db0, win, ds, src)
    requires k0 + |page| <= |all| && forall i :: 0 <= i < |page| ==> page[i] == all[k0 + i]
    requires Executed(target.Data(), [], k0, win, ds, db0, src, a0, s0)
    modifies target`rows, target`tombs, target`marks
    ensures k0 <= k <= |win| && Executed(target.Data(), pending, k, win, ds, db0, src, applied, skipped)
    ensures if stop then k == |win| else k == k0 + |page|
  {
    var i := 0;
    pending, applied, skipped, stop, k := [], a0, s0, false, k0;
    while i < |page| && !stop
      invariant 0 <= i <= |page| && k == k0 + i <= |win|
      invariant stop ==> k == |win|
      invariant Executed(target.Data(), pending, k, win, ds, db0, src, applied, skipped)
      decreases |page| - i, !stop
    {
      pending, applied, skipped, stop, k :=
        ExecuteOrStop(target, pending, page[i], scan, bounded, src, applied, skipped, k, win, ds, all, db0);
      if !stop { i := i + 1; }
    }
  }

  /** A page: its events, then the writing of what is pending. */
  method ExecutePage(target: MemoryDB, page: seq<Event>, scan: Scan, bounded: bool, src: Identity, a0: int, s0: int,
                     ghost k0: nat, ghost win: seq<Event>, ghost ds: seq<Disposition>, ghost all: seq<Event>, ghost db0: DB)
      returns (applied: int, skipped: int, stop: bool, ghost k: nat)
    requires Spans(win, all, scan, bounded) && Recorded(scan.plan, win, ds) && SoundAll(db0, win, ds, src)
    requires k0 + |page| <= |all| && page == all[k0..k0 + |page|]
    requires Executed(target.Data(), [], k0, win, ds, db0, src, a0, s0)
    modifies target`rows, target`tombs, target`marks
    ensures k0 <= k <= |win| && Executed(target.Data(), [], k, win, ds, db0, src, applied, skipped)
    ensures stop ==> k == |win|
    ensures !stop ==> k == k0 + |page|
  {
    var pending;
    pending, applied, skipped, stop, k := ExecuteEvents(target, page, scan, bounded, src, a0, s0, k0, win, ds, all, db0);
    applied := FlushPage(target, pending, src, applied, skipped, k, win, ds, db0);
  }

  /** After a page executed to its end: where the next one starts, or that the window is closed
      because the last planned event is reached or this was the last page. */
  method AfterPage(page: seq<Event>, scan: Scan, bounded: bool, ghost win: seq<Event>, ghost all: seq<Event>, ghost k: nat)
      returns (pos: int, stop: bool)
    requires Spans(win, all, scan, bounded) && 0 < |page| <= k <= |win| && page[|page| - 1] == all[k - 1]
    requires |page| < PAGE ==> k == |all|
    ensures pos == all[k - 1].seqNo && (stop ==> k == |win|)
  {
    pos := page[|page| - 1].seqNo;
    stop := (bounded && pos >= scan.last) || |page| < PAGE;
    if k < |win| { assert all[k - 1].seqNo < all[|win| - 1].seqNo; }
  }

  /** Fetch and execute the next page. */
  method ExecuteNextPage(source: MemoryDB, target: MemoryDB, c: Cursor, scan: Scan, bounded: bool, pos0: int, a0: int, s0: int,
                         ghost k0: nat, ghost win: seq<Event>, ghost ds: seq<Disposition>, ghost all: seq<Event>, ghost db0: DB)
      returns (applied: int, skipped: int, pos: int, stop: bool, ghost k: nat)
    requires source != target && Increasing(source.events) && c.seqNo >= 0 && all == InScope(source.events, c.ns, c.seqNo)
    requires Spans(win, all, scan, bounded) && Recorded(scan.plan, win, ds) && SoundAll(db0, win, ds, source.identity)
    requires Executed(target.Data(), [], k0, win, ds, db0, source.identity, a0, s0)
    requires pos0 == if k0 == 0 then c.seqNo else all[k0 - 1].seqNo
    modifies target`rows, target`tombs, target`marks
    ensures k <= |win| && Executed(target.Data(), [], k, win, ds, db0, source.identity, applied, skipped)
    ensures stop ==> k == |win|
    ensures !stop ==> k > k0 && pos == all[k - 1].seqNo
  {
    var page := FetchPage(source, c, pos0, PAGE, k0, all);
    if |page| == 0 {
      return a0, s0, pos0, true, k0;
    }
    applied, skipped, stop, k := ExecutePage(target, page, scan, bounded, source.identity, a0, s0, k0, win, ds, all, db0);
    pos := pos0;
    if !stop {
      assert page[|page| - 1] == all[k - 1];
      pos, stop := AfterPage(page, scan, bounded, win, all, k);
    }
  }

  /** Page after page until the window is executed. */
  method ExecutePages(source: MemoryDB, target: MemoryDB, c: Cursor, scan: Scan, bounded: bool,
                      ghost win: seq<Event>, ghost ds: seq<Disposition>, ghost all: seq<Event>) returns (applied: int, skipped: int)
    requires source != target && Increasing(source.events) && c.seqNo >= 0 && all == InScope(source.events, c.ns, c.seqNo)
    requires Spans(win, all, scan, bounded) && Recorded(scan.plan, win, ds) && SoundAll(target.Data(), win, ds, source.identity)
    requires Executed(target.Data(), [], 0, win, ds, target.Data(), source.identity, 0, 0)
    modifies target`rows, target`tombs, target`marks
    ensures Executed(target.Data(), [], |win|, win, ds, old(target.Data()), source.identity, applied, skipped)
  {
    ghost var k: nat, db0 := 0, target.Data();
    var pos, stop := c.seqNo, false;
    applied, skipped := 0, 0;
    while !stop
      invariant k <= |win| && Executed(target.Data(), [], k, win, ds, db0, source.identity, applied, skipped)
      invariant !stop ==> pos == if k == 0 then c.seqNo else all[k - 1].seqNo
      invariant stop ==> k == |win|
      decreases !stop, |all| - k
    {
      applied, skipped, pos, stop, k := ExecuteNextPage(source, target, c, scan, bounded, pos, applied, skipped, k, win, ds, all, db0);
    }
  }

  /** Pass 2: stream the window again and execute the plan page by page. The tables end as if the
      dispositions were executed one at a time, and the counters count them. */
  method ExecuteWindow(source: MemoryDB, target: MemoryDB, c: Cursor, scan: Scan, bounded: bool,
                       ghost win: seq<Event>, ghost ds: seq<Disposition>) returns (applied: int, skipped: int)
    requires source != target && Increasing(source.events) && c.seqNo >= 0
    requires Spans(win, InScope(source.events, c.ns, c.seqNo), scan, bounded)
    requires Recorded(scan.plan, win, ds) && SoundAll(target.Data(), win, ds, source.identity) && UniqueRows(target.rows)
    modifies target`rows, target`tombs, target`marks
    ensures target.Data() == ApplyAll(old(target.Data()), win, ds, source.identity) && UniqueRows(target.rows)
    ensures applied == Applied(ds) && skipped == Skipped(ds)
  {
    NothingPending(target.Data(), source.identity);
    assert win[..0] == [] && ds[..0] == [];
    applied, skipped := ExecutePages(source, target, c, scan, bounded, win, ds, InScope(source.events, c.ns, c.seqNo));
    assert win[..|win|] == win && ds[..|win|] == ds;
  }

  /** An accepted plan can be executed, and its window is what the scan recorded. */
  lemma PlanIsExecutable(es: seq<Event>, src: Identity, db: DB, c: Cursor, max: Option<nat>, scan: Scan, ds: seq<Disposition>, wanted: bool)
    requires Increasing(es) && Persistent(src) && UniqueRows(db.rows) && c.seqNo >= 0 && (max.Some? ==> max.value > 0)
    requires var win := Window(es, c.ns, c.seqNo, max);
             PlanAll(win, src, c.types, EagerView(db, c.seqNo)).Planned? &&
             ds == PlanAll(win, src, c.types, EagerView(db, c.seqNo)).ds && Scanned(scan, win, ds, InScope(es, c.ns, c.seqNo), c, wanted)
    ensures var win := Window(es, c.ns, c.seqNo, max);
            Spans(win, InScope(es, c.ns, c.seqNo), scan, max.Some?) && |win| == |ds| && SoundAll(db, win, ds, src)
  {
    var win := Window(es, c.ns, c.seqNo, max);
    EagerViewIsCoherent(db, c.seqNo);
    PlansAreSound(win, src, c.types, EagerView(db, c.seqNo), db);
    InScopeInOrder(es, c.ns, c.seqNo);
  }

  /** The replay is complete exactly if nothing in scope is left after the returned cursor. */
  lemma CompletedMeansDone(es: seq<Event>, c: Cursor, win: seq<Event>)
    requires Increasing(es) && c.seqNo >= 0 && win <= InScope(es, c.ns, c.seqNo)
    ensures |win| == |InScope(es, c.ns, c.seqNo)| <==> InScope(es, c.ns, Advance(c, win).seqNo) == []
  {
    NextPage(es, c.ns, c.seqNo, |win|, Advance(c, win).seqNo);
  }

  /** What a replay reports. */
  datatype Outcome = Outcome(applied: int, skipped: int, scanned: nat, cursor: Cursor, completed: bool)

  /** The report of a replay of `win` out of everything in scope, with dispositions `ds`. */
  ghost predicate Reports(o: Outcome, es: seq<Event>, c: Cursor, win: seq<Event>, ds: seq<Disposition>) {
    && o.applied == Applied(ds) && o.skipped == Skipped(ds) && o.scanned == |win|
    && o.applied + o.skipped + Observations(ds) == o.scanned
    && (o.completed <==> InScope(es, c.ns, o.cursor.seqNo) == [])
  }

  lemma ReportHolds(o: Outcome, es: seq<Event>, c: Cursor, win: seq<Event>, ds: seq<Disposition>, scan: Scan, saved: Option<Cursor>)
    requires Increasing(es) && c.seqNo >= 0 && win <= InScope(es, c.ns, c.seqNo)
    requires Scanned(scan, win, ds, InScope(es, c.ns, c.seqNo), c, scan.keys.Some?)
    requires o == Outcome(Applied(ds), Skipped(ds), scan.scanned, SavedAfter(saved, c, win), scan.reachedEnd)
    ensures Reports(o, es, c, win, ds)
  {
    CountsAddUp(ds);
    CompletedMeansDone(es, c, win);
    assert o.cursor.seqNo == Advance(c, win).seqNo;
  }

  lemma CheckpointIs(c: Cursor, win: seq<Event>, scan: Scan, ds: seq<Disposition>, all: seq<Event>, saved: Option<Cursor>)
    requires Scanned(scan, win, ds, all, c, scan.keys.Some?)
    ensures SavedAfter(saved, c, win) ==
            if scan.scanned == 0 && saved.Some? && SameSpot(saved.value, c) then saved.value
            else c.(seqNo := scan.last, anchor := scan.anchor)
  {
  }

  /** The outcome accounts for the window of the cursor, as planned on the tables `db`. */
  ghost predicate Accounts(o: Outcome, es: seq<Event>, src: Identity, db: DB, c: Cursor, max: Option<nat>)
    requires UniqueRows(db.rows)
  {
    var win := Window(es, c.ns, c.seqNo, max);
    var p := PlanAll(win, src, c.types, EagerView(db, c.seqNo));
    p.Planned? && Reports(o, es, c, win, p.ds)
  }

  /** Pass 1 has accepted the window with this plan. */
  ghost predicate Accepted(scan: Scan, ds: seq<Disposition>, es: seq<Event>, src: Identity, db: DB, c: Cursor, max: Option<nat>)
    requires UniqueRows(db.rows)
  {
    var win := Window(es, c.ns, c.seqNo, max);
    var p := PlanAll(win, src, c.types, EagerView(db, c.seqNo));
    p.Planned? && ds == p.ds && Scanned(scan, win, ds, InScope(es, c.ns, c.seqNo), c, scan.keys.Some?)
  }

  /** Pass 2, then the new checkpoint, unless nothing was scanned and the saved one stands on the same
      spot. */
  method WriteWindow(source: MemoryDB, target: MemoryDB, c: Cursor, scan: Scan, bounded: bool,
                     ghost win: seq<Event>, ghost ds: seq<Disposition>) returns (applied: int, skipped: int, next: Cursor)
    requires source != target && Increasing(source.events) && c.seqNo >= 0
    requires Spans(win, InScope(source.events, c.ns, c.seqNo), scan, bounded) && SoundAll(target.Data(), win, ds, source.identity)
    requires Scanned(scan, win, ds, InScope(source.events, c.ns, c.seqNo), c, scan.keys.Some?) && UniqueRows(target.rows)
    modifies target`rows, target`tombs, target`marks, target`saved
    ensures target.Data() == ApplyAll(old(target.Data()), win, ds, source.identity) && UniqueRows(target.rows)
    ensures applied == Applied(ds) && skipped == Skipped(ds)
    ensures next == SavedAfter(old(target.saved), c, win) && target.saved == Some(next)
  {
    CheckpointIs(c, win, scan, ds, InScope(source.events, c.ns, c.seqNo), target.saved);
    applied, skipped := ExecuteWindow(source, target, c, scan, bounded, win, ds);
    next := c.(seqNo := scan.last, anchor := scan.anchor);
    if scan.scanned == 0 && target.saved.Some? && SameSpot(target.saved.value, c) {
      next := target.saved.value;
    }
    target.saved := Some(next);
  }

  /** What is written once pass 1 has accepted the window. */
  method WriteAccepted(source: MemoryDB, target: MemoryDB, c: Cursor, max: Option<nat>, scan: Scan, ghost ds: seq<Disposition>)
      returns (o: Outcome)
    requires source != target && source.Valid() && target.Valid() && WellFormed(c) && Persistent(source.identity)
    requires max.Some? ==> max.value > 0
    requires Accepted(scan, ds, source.events, source.identity, target.Data(), c, max)
    modifies target`rows, target`tombs, target`marks, target`saved
    ensures var win := Window(source.events, c.ns, c.seqNo, max);
            |ds| == |win| && target.Data() == ApplyAll(old(target.Data()), win, ds, source.identity) &&
            target.saved == Some(SavedAfter(old(target.saved), c, win)) && target.saved == Some(o.cursor) &&
            Reports(o, source.events, c, win, ds)
    ensures UniqueRows(target.rows)
  {
    ghost var win, saved := Window(source.events, c.ns, c.seqNo, max), target.saved;
    PlanIsExecutable(source.events, source.identity, target.Data(), c, max, scan, ds, scan.keys.Some?);
    var applied, skipped, next := WriteWindow(source, target, c, scan, max.Some?, win, ds);
    o := Outcome(applied, skipped, scan.scanned, next, scan.reachedEnd);
    ReportHolds(o, source.events, c, win, ds, scan, saved);
  }

  /** Whether the target holds a row that the window does not name. */
  method HasForeign(target: MemoryDB, keys: set<Pair>) returns (found: bool)
    ensures found <==> Foreign(target.rows, keys)
  {
    var own := set m | m in target.rows :: IdentityKey(target.rows[m]);
    found := own - keys != {};
    assert Foreign(target.rows, keys) ==> own - keys != {} by {
      if Foreign(target.rows, keys) {
        var m :| m in target.rows && IdentityKey(target.rows[m]) !in keys;
        assert IdentityKey(target.rows[m]) in own - keys;
      }
    }
  }

  lemma ExecuteIs(s: Store, before: Replica, c: Cursor, max: Option<nat>, now: Replica, ds: seq<Disposition>)
    requires UniqueRows(before.db.rows)
    requires var win := Window(s.log.events, c.ns, c.seqNo, max);
             var p := PlanAll(win, s.identity, c.types, EagerView(before.db, c.seqNo));
             p.Planned? && ds == p.ds && now.db == ApplyAll(before.db, win, ds, s.identity) &&
             now.saved == Some(SavedAfter(before.saved, c, win))
    ensures Execute(s, before, c, max) == Ok(now)
  {
  }

  /** Both passes, once the cursor is accepted. Nothing is written before the whole window is
      planned and the target's own rows, if they are in question, are found in it. */
  method RunAccepted(source: MemoryDB, target: MemoryDB, c: Cursor, max: Option<nat>, guard: bool) returns (r: Result<Outcome, ReplayError>)
    requires source != target && source.Valid() && target.Valid() && WellFormed(c) && Persistent(source.identity)
    requires max.Some? ==> max.value > 0
    modifies target
    ensures match Execute(source.Value(), Replica(old(target.Data()), old(target.saved)), c, max)
            case Err(e) => r == Err(Execution(e))
            case Ok(after) =>
              if guard && Foreign(old(target.rows), SourceKeys(Window(source.events, c.ns, c.seqNo, max))) then r == Err(ForeignRecords)
              else r.Ok? && Replica(target.Data(), target.saved) == after && after.saved == Some(r.value.cursor)
    ensures r.Ok? ==> Accounts(r.value, source.events, source.identity, old(target.Data()), c, max)
    ensures r.Err? ==> target.Data() == old(target.Data()) && target.saved == old(target.saved)
    ensures target.Valid() && target.EventLog() == old(target.EventLog())
  {
    ghost var before := Replica(target.Data(), target.saved);
    ghost var p := PlanAll(Window(source.events, c.ns, c.seqNo, max), source.identity, c.types, EagerView(target.Data(), c.seqNo));
    var plan := PlanWindow(source, target, c, max, guard);
    if plan.Err? {
      return Err(Execution(plan.error));
    }
    if plan.value.keys.Some? {
      var foreign := HasForeign(target, plan.value.keys.value);
      if foreign {
        return Err(ForeignRecords);
      }
    }
    var o := WriteAccepted(source, target, c, max, plan.value, p.ds);
    ExecuteIs(source.Value(), before, c, max, Replica(target.Data(), target.saved), p.ds);
    r := Ok(o);
  }

  /** The checks of a cursor against source and target, in the code's order. */
  method AcceptCursor(source: MemoryDB, target: MemoryDB, c: Cursor, want: Option<string>, max: Option<nat>) returns (refused: Option<ReplayError>)
    requires source.Valid()
    ensures var r := Replica(target.Data(), target.saved);
            refused ==
              var bad := CheckCursor(source.EventLog(), source.identity, c, want);
              if bad.Some? then Some(BadCursor(bad.value))
              else if !HasBase(r.saved, c) then Some(NoBase)
              else if !BoundTo(r, source.identity) then Some(BoundElsewhere)
              else if NeedsGuard(r) && max.Some? then Some(Unverifiable)
              else None
  {
    var bad := source.ValidateCursor(c, want);
    if bad.Some? { return Some(BadCursor(bad.value)); }
    if !HasBase(target.saved, c) { return Some(NoBase); }
    if target.saved.Some? && target.saved.value.owner.mount != source.identity.mount { return Some(BoundElsewhere); }
    if target.saved.None? && target.rows != map[] && max.Some? { return Some(Unverifiable); }
    refused := None;
  }

  /** The cursor to replay from. */
  method ResolveCursor(source: MemoryDB, target: MemoryDB, given: Option<Cursor>, want: Option<string>) returns (r: Result<Cursor, ReplayError>)
    ensures r == Resolve(source.Value(), target.saved, given, want)
  {
    if given.Some? { return Ok(given.value); }
    if target.saved.Some? { return Ok(target.saved.value); }
    if !Persistent(source.identity) { return Err(BadCursor(NoPersistentIdentity)); }
    if source.trimmedThrough > 0 { return Err(BadCursor(StaleBase)); }
    r := Ok(Cursor(source.identity, 0, "", want, ALL_RECONSTRUCTING));
  }

  ghost predicate WellFormedIf(c: Option<Cursor>) {
    c.Some? ==> WellFormed(c.value)
  }

  /** The tables and the checkpoint are what a replay left, or as they were if it was refused. */
  ghost predicate Left(now: Replica, before: Replica, out: Result<Replica, ReplayError>, r: Result<Outcome, ReplayError>) {
    match out
    case Err(e) => r == Err(e) && now == before
    case Ok(after) => r.Ok? && now == after && after.saved == Some(r.value.cursor)
  }

  /** A replay from a given cursor. */
  method ReplayResolved(source: MemoryDB, target: MemoryDB, c: Cursor, want: Option<string>, max: Option<nat>)
      returns (r: Result<Outcome, ReplayError>)
    requires source != target && source.Valid() && target.Valid() && WellFormed(c) && max != Some(0)
    modifies target
    ensures var before := Replica(old(target.Data()), old(target.saved));
            Left(Replica(target.Data(), target.saved), before, ReplayFrom(source.Value(), before, c, want, max), r)
    ensures r.Ok? ==> Accounts(r.value, source.events, source.identity, old(target.Data()), c, max)
    ensures target.Valid() && target.EventLog() == old(target.EventLog())
  {
    var refused := AcceptCursor(source, target, c, want, max);
    if refused.Some? {
      return Err(refused.value);
    }
    r := RunAccepted(source, target, c, max, target.saved.None? && target.rows != map[]);
  }

  /** replay_with_cursor into a target without an event log of its own. A refused replay changes
      nothing; an accepted one leaves exactly the tables and checkpoint of `ReplayCall`, and its
      report accounts for every event of the window. */
  method ReplayWithCursor(source: MemoryDB, target: MemoryDB, given: Option<Cursor>, want: Option<string>, max: Option<nat>)
      returns (r: Result<Outcome, ReplayError>)
    requires source != target && source.Valid() && target.Valid() && WellFormedIf(given) && WellFormedIf(target.saved)
    requires BoundsOf(target.EventLog()).headSeq == 0
    modifies target
    ensures var before := Replica(old(target.Data()), old(target.saved));
            Left(Replica(target.Data(), target.saved), before, ReplayCall(source.Value(), before, given, want, max), r)
    ensures r.Ok? ==>
              Accounts(r.value, source.events, source.identity, old(target.Data()),
                       Resolve(source.Value(), old(target.saved), given, want).value, max)
    ensures target.Valid() && target.EventLog() == old(target.EventLog())
  {
    if max == Some(0) {
      return Err(InvalidBudget);
    }
    var resolved := ResolveCursor(source, target, given, want);
    if resolved.Err? {
      return Err(resolved.error);
    }
    r := ReplayResolved(source, target, resolved.value, want, max);
  }
}
