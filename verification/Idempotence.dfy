/** What a run leaves behind for each event of its range: a later run skips it, or meets a row that a
    later create has put there. */
module Idempotence {
  import opened Records
  import opened Planner
  import opened Execution

  /** No watermark was left by a legacy (pre-v1) deduplicating replay. */
  ghost predicate NoLegacyMarks(marks: map<Id, Mark>) {
    forall m <- marks :: marks[m].fp != ""
  }

  /** What a run with fresh run-sets sees of the event's id; the index plays no part in skips. */
  function Fresh(db: DB, e: Event): Local {
    Local(Get(LiveRows(db.rows), e.id), Get(Graves(db.tombs), e.id), Get(db.marks, e.id), None, false, false)
  }

  predicate Skips(r: Result<Disposition, Reason>) {
    r.Ok? && (r.value.SkipIdempotent? || r.value.SkipDeduped?)
  }

  /** A later run over these tables skips the event. */
  predicate Settled(db: DB, e: Event, src: Identity) {
    Reconstructing(e.etype) ==> Skips(Decide(e, src, Fresh(db, e)))
  }

  /** Watermarks that planning cannot tell apart: for a live id they are equal, for any other
      id they agree on being a legacy marker. */
  predicate SameMark(live: bool, a: Option<Mark>, b: Option<Mark>, src: Identity) {
    if live then a == b else LegacyMarker(a, src) == LegacyMarker(b, src)
  }

  /** How the watermark table moves during a run: untouched ids keep their watermark, touched
      live ids carry the last applied event, touched dead ids carry none. */
  ghost predicate MarksTrack(v: View, db: DB, src: Identity) {
    && (forall m :: m !in v.mutated ==> SameMark(m in v.live, Get(db.marks, m), Get(v.marks, m), src))
    && (forall m <- v.mutated ::
          if m in v.live
          then m in db.marks && db.marks[m].fp == v.live[m].fp && db.marks[m].lastSeq <= v.prev && db.marks[m].history == src.history
          else m !in db.marks && m in v.tombs && v.tombs[m].seqNo <= v.prev)
    && v.created <= v.mutated
  }

  lemma CreateTracks(v: View, db: DB, e: Event, src: Identity)
    requires MarksTrack(v, db, src) && Admitted(v, e, src, ApplyCreate) && Coherent(v, db) && Lands(db, e, ApplyCreate)
    ensures MarksTrack(Effect(v, e, ApplyCreate, src), ApplyOne(db, e, ApplyCreate, src), src)
  {
  }

  lemma UpdateTracks(v: View, db: DB, e: Event, src: Identity)
    requires MarksTrack(v, db, src) && Admitted(v, e, src, ApplyUpdate) && Coherent(v, db) && Lands(db, e, ApplyUpdate)
    ensures MarksTrack(Effect(v, e, ApplyUpdate, src), ApplyOne(db, e, ApplyUpdate, src), src)
  {
  }

  lemma DeleteTracks(v: View, db: DB, e: Event, src: Identity)
    requires MarksTrack(v, db, src) && Admitted(v, e, src, ApplyDelete) && Coherent(v, db) && Lands(db, e, ApplyDelete)
    ensures MarksTrack(Effect(v, e, ApplyDelete, src), ApplyOne(db, e, ApplyDelete, src), src)
  {
  }

  lemma ChangeTracks(v: View, db: DB, e: Event, src: Identity, d: Disposition)
    requires MarksTrack(v, db, src) && Admitted(v, e, src, d) && Coherent(v, db) && Lands(db, e, d)
    ensures MarksTrack(Effect(v, e, d, src), ApplyOne(db, e, d, src), src)
  {
    match d
    case ApplyCreate => CreateTracks(v, db, e, src);
    case ApplyUpdate => UpdateTracks(v, db, e, src);
    case ApplyDelete => DeleteTracks(v, db, e, src);
    case _ =>
  }

  lemma MarksTrackStep(v: View, db: DB, e: Event, src: Identity, scope: set<EventType>, d: Disposition)
    requires Persistent(src) && Coherent(v, db) && MarksTrack(v, db, src)
    requires Disposed(e, src, scope, v) == Ok(d)
    ensures MarksTrack(Effect(v, e, d, src), ApplyOne(db, e, d, src), src)
  {
    SkipsAdvance(v, e, src, scope, d);
    if IsApply(d) || d.SkipDeduped? {
      ChangesAreAdmitted(v, e, src, scope, d);
      StepIsExact(v, db, e, src, scope, d);
      ChangeTracks(v, db, e, src, d);
    }
  }

  lemma SkipsAdvance(v: View, e: Event, src: Identity, scope: set<EventType>, d: Disposition)
    requires Disposed(e, src, scope, v) == Ok(d)
    ensures v.prev < e.seqNo
  {
  }

  lemma NeverDeduped(v: View, e: Event, src: Identity, scope: set<EventType>, d: Disposition)
    requires Persistent(src) && NoLegacyMarks(v.marks) && Disposed(e, src, scope, v) == Ok(d)
    ensures !d.SkipDeduped?
  {
    if d.SkipDeduped? { ChangesAreAdmitted(v, e, src, scope, d); }
  }

  /** How an event rewrites what a fresh run sees of its own id. */
  function FreshAfter(l: Local, f: Event, d: Disposition, src: Identity): Local {
    match d
    case ApplyCreate => l.(live := Some(LiveOf(f.rec)), mark := Some(MarkOf(f, src)))
    case ApplyUpdate => l.(live := Some(LiveOf(f.rec)), mark := Some(MarkOf(f, src)))
    case ApplyDelete => l.(live := None, tomb := Some(GraveOf(TombOf(f, ""))), mark := None)
    case SkipDeduped => l.(mark := Some(MarkOf(f, src).(fp := "")))
    case SkipIdempotent => l
    case Observed => l
  }

  lemma FreshStep(db: DB, e: Event, f: Event, d: Disposition, src: Identity)
    requires Lands(db, f, d)
    ensures Fresh(ApplyOne(db, f, d, src), e) == if e.id == f.id then FreshAfter(Fresh(db, e), f, d, src) else Fresh(db, e)
  {
  }

  /** The accepted event itself is skipped by a new run afterwards. */
  lemma DecisionSettles(l: Local, e: Event, src: Identity, d: Disposition, anew: Local)
    requires Reconstructing(e.etype) && Decide(e, src, l) == Ok(d)
    requires anew.live == l.live && anew.tomb == l.tomb && !anew.mutated && !anew.created
    requires !l.mutated && l.live.Some? ==> anew.mark == l.mark
    requires e.origin.history == src.history
    ensures Skips(Decide(e, src, FreshAfter(anew, e, d, src)))
  {
  }

  /** The event just planned is settled in the tables it leaves behind. */
  lemma StepSettles(v: View, db: DB, e: Event, src: Identity, scope: set<EventType>, d: Disposition)
    requires Persistent(src) && Coherent(v, db) && MarksTrack(v, db, src)
    requires Disposed(e, src, scope, v) == Ok(d)
    ensures Settled(ApplyOne(db, e, d, src), e, src)
  {
    if Reconstructing(e.etype) {
      ChangesAreAdmitted(v, e, src, scope, d);
      StepIsExact(v, db, e, src, scope, d);
      FreshStep(db, e, e, d, src);
      DecisionSettles(LocalOf(v, e), e, src, d, Fresh(db, e));
    }
  }

  /** A deduplicated event asks for more than the row that a later create has put there: a
      delete, or an update that names another namespace or no base. */
  predicate Upsets(e: Event, ns: string) {
    e.etype.Deleted? || (e.etype.Updated? && (e.rec.ns != ns || e.prevHash == "" || e.prevFp == ""))
  }

  /** An earlier event that was deduplicated and now meets a live row it cannot skip. */
  predicate Upset(v: View, e: Event, d: Disposition) {
    d.SkipDeduped? && e.id in v.live && Upsets(e, v.live[e.id].ns)
  }

  /** Every id that an accepted event names is live or tombstoned afterwards, unless the event
      was deduplicated. */
  predicate Accounted(v: View, e: Event, d: Disposition) {
    Reconstructing(e.etype) && !d.SkipDeduped? ==> e.id in v.live || e.id in v.tombs
  }

  /** Where an earlier event stands in a run: accounted for, and settled exactly if not upset. */
  ghost predicate Placed(v: View, db: DB, e: Event, d: Disposition, src: Identity) {
    Accounted(v, e, d) && (Settled(db, e, src) <==> !Upset(v, e, d))
  }

  /** What a later event of the same id does to an earlier one. */
  lemma LaterSameId(l: Local, e: Event, de: Disposition, f: Event, src: Identity, d: Disposition, now: Local)
    requires Reconstructing(e.etype) && !l.mutated && !l.created
    requires Skips(Decide(e, src, l)) <==> !(de.SkipDeduped? && l.live.Some? && Upsets(e, l.live.value.ns))
    requires !de.SkipDeduped? ==> l.live.Some? || l.tomb.Some?
    requires Reconstructing(f.etype) && Decide(f, src, now) == Ok(d)
    requires now.live == l.live && now.tomb == l.tomb && e.seqNo < f.seqNo
    requires f.origin.history == src.history
    ensures var a := FreshAfter(l, f, d, src);
            Skips(Decide(e, src, a)) <==> !(de.SkipDeduped? && a.live.Some? && Upsets(e, a.live.value.ns))
  {
  }

  /** A later event of the same id keeps an earlier one placed. */
  lemma PlacedBySameId(v: View, db: DB, e: Event, de: Disposition, f: Event, src: Identity, d: Disposition)
    requires Coherent(v, db) && Lands(db, f, d) && Admitted(v, f, src, d)
    requires Reconstructing(f.etype) && Decide(f, src, LocalOf(v, f)) == Ok(d)
    requires Reconstructing(e.etype) && Placed(v, db, e, de, src) && e.seqNo < f.seqNo && e.id == f.id
    ensures Placed(Effect(v, f, d, src), ApplyOne(db, f, d, src), e, de, src)
  {
    FreshStep(db, e, f, d, src);
    LaterSameId(Fresh(db, e), e, de, f, src, d, LocalOf(v, f));
  }

  lemma PlacedByOtherId(v: View, db: DB, e: Event, de: Disposition, f: Event, src: Identity, d: Disposition)
    requires Lands(db, f, d) && Reconstructing(e.etype) && Placed(v, db, e, de, src) && e.id != f.id
    ensures Placed(Effect(v, f, d, src), ApplyOne(db, f, d, src), e, de, src)
  {
    FreshStep(db, e, f, d, src);
  }

  /** A later event keeps an earlier one placed. */
  lemma PlacedStays(v: View, db: DB, e: Event, de: Disposition, f: Event, src: Identity, scope: set<EventType>, d: Disposition)
    requires Persistent(src) && Coherent(v, db)
    requires Disposed(f, src, scope, v) == Ok(d)
    requires Placed(v, db, e, de, src) && e.seqNo <= v.prev
    ensures Placed(Effect(v, f, d, src), ApplyOne(db, f, d, src), e, de, src)
  {
    if !d.Observed? && Reconstructing(e.etype) {
      ChangesAreAdmitted(v, f, src, scope, d);
      StepIsExact(v, db, f, src, scope, d);
      if e.id == f.id {
        PlacedBySameId(v, db, e, de, f, src, d);
      } else {
        PlacedByOtherId(v, db, e, de, f, src, d);
      }
    }
  }

  /** The event just planned is placed. */
  lemma StepPlaces(v: View, db: DB, e: Event, src: Identity, scope: set<EventType>, d: Disposition)
    requires Persistent(src) && Coherent(v, db) && MarksTrack(v, db, src)
    requires Disposed(e, src, scope, v) == Ok(d)
    ensures Placed(Effect(v, e, d, src), ApplyOne(db, e, d, src), e, d, src)
  {
    StepSettles(v, db, e, src, scope, d);
    if !d.Observed? { ChangesAreAdmitted(v, e, src, scope, d); }
  }

  /** Events in a plan have increasing sequence numbers and end at the simulation's `prev`. */
  lemma {:induction false} PlanAdvances(es: seq<Event>, src: Identity, scope: set<EventType>, v: View)
    requires PlanAll(es, src, scope, v).Planned?
    ensures var p := PlanAll(es, src, scope, v);
            |p.ds| == |es| && p.view.prev >= v.prev &&
            (forall i :: 0 <= i < |es| ==> v.prev < es[i].seqNo <= p.view.prev) &&
            p.view.prev == (if es == [] then v.prev else es[|es| - 1].seqNo)
  {
    if es != [] {
      var n := |es| - 1;
      PlanAdvances(es[..n], src, scope, v);
      assert forall i :: 0 <= i < n ==> es[i] == es[..n][i];
    }
  }

  /** Every event of a run is placed. */
  ghost predicate AllPlaced(v: View, db: DB, es: seq<Event>, ds: seq<Disposition>, src: Identity) {
    |ds| == |es| && forall i :: 0 <= i < |es| ==> Placed(v, db, es[i], ds[i], src)
  }

  lemma AllPlacedNext(v: View, db: DB, past: seq<Event>, ds: seq<Disposition>, e: Event, src: Identity, scope: set<EventType>, d: Disposition)
    requires Persistent(src) && Coherent(v, db) && MarksTrack(v, db, src) && AllPlaced(v, db, past, ds, src)
    requires Disposed(e, src, scope, v) == Ok(d) && forall i :: 0 <= i < |past| ==> past[i].seqNo <= v.prev
    ensures AllPlaced(Effect(v, e, d, src), ApplyOne(db, e, d, src), past + [e], ds + [d], src)
  {
    StepPlaces(v, db, e, src, scope, d);
    forall i | 0 <= i < |past| ensures Placed(Effect(v, e, d, src), ApplyOne(db, e, d, src), past[i], ds[i], src) {
      PlacedStays(v, db, past[i], ds[i], e, src, scope, d);
    }
  }

  /** After a run, every event of the range is placed. */
  lemma {:induction false} RunPlaces(es: seq<Event>, src: Identity, scope: set<EventType>, v: View, db: DB)
    requires Persistent(src) && Coherent(v, db) && MarksTrack(v, db, src)
    requires PlanAll(es, src, scope, v).Planned?
    ensures var p := PlanAll(es, src, scope, v);
            var after := ApplyAll(db, es, p.ds, src);
            Coherent(p.view, after) && MarksTrack(p.view, after, src) && p.view.marks == v.marks && AllPlaced(p.view, after, es, p.ds, src)
  {
    if es != [] {
      var past, e, q, d := PlanUnsnoc(es, src, scope, v, db);
      var mid := ApplyAll(db, past, q.ds, src);
      RunPlaces(past, src, scope, v, db);
      PlanAdvances(past, src, scope, v);
      StepIsExact(q.view, mid, e, src, scope, d);
      MarksTrackStep(q.view, mid, e, src, scope, d);
      AllPlacedNext(q.view, mid, past, q.ds, e, src, scope, d);
    }
  }

  predicate AllSkipped(ds: seq<Disposition>) {
    forall d <- ds :: !IsApply(d)
  }

  /** The same rows and tombstones, and the same watermarks of ids that have either. */
  ghost predicate SameButMarkers(a: DB, b: DB) {
    && a.rows == b.rows && a.tombs == b.tombs
    && forall m :: m in a.rows || m in a.tombs ==> Get(a.marks, m) == Get(b.marks, m)
  }

  /** A settled event that passes the checks is skipped, and only moves `prev`. */
  lemma SettledEventSkips(e: Event, src: Identity, scope: set<EventType>, db: DB, v: View)
    requires UniqueRows(db.rows) && v == EagerView(db, v.prev) && Settled(db, e, src)
    requires CheckEvent(e, v.prev, src, scope) == None
    ensures var r := Disposed(e, src, scope, v);
            r.Ok? && !IsApply(r.value) && SameButMarkers(ApplyOne(db, e, r.value, src), db)
  {
    if !e.etype.Observational? {
      assert Reconstructing(e.etype);
      SettledSkips(e, src, db, v);
      DedupedIsUnknown(e, src, LocalOf(v, e));
      assert Disposed(e, src, scope, v) == Decide(e, src, LocalOf(v, e));
      SkipIsHarmless(db, e, Decide(e, src, LocalOf(v, e)).value, src);
    }
  }

  lemma DedupedIsUnknown(e: Event, src: Identity, l: Local)
    requires Reconstructing(e.etype)
    ensures Decide(e, src, l) == Ok(SkipDeduped) ==> l.live.None? && l.tomb.None?
  {
  }

  lemma SkipIsHarmless(db: DB, e: Event, d: Disposition, src: Identity)
    requires d.SkipIdempotent? || (d.SkipDeduped? && e.id !in db.rows && e.id !in db.tombs)
    ensures SameButMarkers(ApplyOne(db, e, d, src), db)
  {
  }

  lemma SettledSkips(e: Event, src: Identity, db: DB, v: View)
    requires UniqueRows(db.rows) && v == EagerView(db, v.prev) && Settled(db, e, src) && Reconstructing(e.etype)
    ensures Skips(Decide(e, src, LocalOf(v, e)))
  {
    assert LocalOf(v, e).(holder := None) == Fresh(db, e);
    HolderIgnoredInSkips(e, src, Fresh(db, e), LocalOf(v, e).holder);
  }

  lemma HolderIgnoredInSkips(e: Event, src: Identity, l: Local, holder: Option<Id>)
    requires Reconstructing(e.etype) && Skips(Decide(e, src, l))
    ensures Decide(e, src, l.(holder := holder)) == Decide(e, src, l)
  {
  }

  function LastSeq(es: seq<Event>, start: int): int {
    if es == [] then start else es[|es| - 1].seqNo
  }

  /** Every event passes the checks that do not consult the target. */
  ghost predicate PassesChecks(es: seq<Event>, src: Identity, scope: set<EventType>, start: int) {
    es != [] ==>
      PassesChecks(es[..|es| - 1], src, scope, start) &&
      CheckEvent(es[|es| - 1], LastSeq(es[..|es| - 1], start), src, scope) == None
  }

  lemma {:induction false} PlannedPassesChecks(es: seq<Event>, src: Identity, scope: set<EventType>, v: View)
    requires PlanAll(es, src, scope, v).Planned?
    ensures PassesChecks(es, src, scope, v.prev)
  {
    if es != [] {
      var n := |es| - 1;
      PlannedPassesChecks(es[..n], src, scope, v);
      PlanAdvances(es[..n], src, scope, v);
    }
  }

  lemma {:induction false} ChecksOfPrefix(es: seq<Event>, k: nat, src: Identity, scope: set<EventType>, start: int)
    requires PassesChecks(es, src, scope, start) && k <= |es|
    ensures PassesChecks(es[..k], src, scope, start)
    ensures k < |es| ==> CheckEvent(es[k], LastSeq(es[..k], start), src, scope) == None
  {
    if k == |es| {
      assert es[..k] == es;
    } else {
      var n := |es| - 1;
      assert es[..n][..k] == es[..k];
      ChecksOfPrefix(es[..n], k, src, scope, start);
    }
  }

  /** A later skip, on tables that differ from the first ones only in dedupe markers. */
  lemma NextSkips(e: Event, src: Identity, scope: set<EventType>, db: DB, now: DB, v: View)
    requires UniqueRows(db.rows) && v == EagerView(db, v.prev) && Settled(db, e, src) && SameButMarkers(now, db)
    requires CheckEvent(e, v.prev, src, scope) == None
    ensures var r := Disposed(e, src, scope, v);
            r.Ok? && !IsApply(r.value) && SameButMarkers(ApplyOne(now, e, r.value, src), db) &&
            Effect(v, e, r.value, src) == v.(prev := e.seqNo)
  {
    SettledEventSkips(e, src, scope, db, v);
  }

  /** A range that is settled in the tables replays as skips only. */
  lemma {:induction false} SettledRangeSkips(es: seq<Event>, src: Identity, scope: set<EventType>, db: DB, start: int, w: View)
    requires UniqueRows(db.rows) && w == EagerView(db, start)
    requires PassesChecks(es, src, scope, start)
    requires forall i :: 0 <= i < |es| ==> Settled(db, es[i], src)
    ensures var p := PlanAll(es, src, scope, w);
            p.Planned? && |p.ds| == |es| && AllSkipped(p.ds) && p.view == w.(prev := LastSeq(es, start)) &&
            SameButMarkers(ApplyAll(db, es, p.ds, src), db)
  {
    if es != [] {
      var n := |es| - 1;
      assert forall i :: 0 <= i < n ==> es[..n][i] == es[i];
      SettledRangeSkips(es[..n], src, scope, db, start, w);
      var q, p := PlanAll(es[..n], src, scope, w), PlanAll(es, src, scope, w);
      NextSkips(es[n], src, scope, db, ApplyAll(db, es[..n], q.ds, src), q.view);
      assert p.ds[..n] == q.ds;
    }
  }

  /** The dedupe marker that a run leaves with an id that it neither finds nor creates. */
  function LastMark(es: seq<Event>, m: Id, before: Option<Mark>, src: Identity): Option<Mark> {
    if es == [] then before
    else
      var n := |es| - 1;
      if es[n].id == m && Reconstructing(es[n].etype) then Some(MarkOf(es[n], src).(fp := ""))
      else LastMark(es[..n], m, before, src)
  }

  lemma DedupedMark(v: View, db: DB, e: Event, src: Identity, scope: set<EventType>, d: Disposition, m: Id)
    requires Persistent(src) && Disposed(e, src, scope, v) == Ok(d)
    requires var v' := Effect(v, e, d, src); m !in v'.live && m !in v'.tombs
    ensures m !in v.live && m !in v.tombs
    ensures Get(ApplyOne(db, e, d, src).marks, m) ==
            if e.id == m && Reconstructing(e.etype) then Some(MarkOf(e, src).(fp := "")) else Get(db.marks, m)
  {
    if !d.Observed? { ChangesAreAdmitted(v, e, src, scope, d); }
  }

  lemma {:induction false} RunLeavesMarkers(es: seq<Event>, src: Identity, scope: set<EventType>, v: View, db: DB, m: Id)
    requires Persistent(src) && PlanAll(es, src, scope, v).Planned?
    requires var p := PlanAll(es, src, scope, v); m !in p.view.live && m !in p.view.tombs
    ensures Get(ApplyAll(db, es, PlanAll(es, src, scope, v).ds, src).marks, m) == LastMark(es, m, Get(db.marks, m), src)
  {
    if es != [] {
      var n := |es| - 1;
      var q, p := PlanAll(es[..n], src, scope, v), PlanAll(es, src, scope, v);
      assert p.ds[..n] == q.ds;
      DedupedMark(q.view, ApplyAll(db, es[..n], q.ds, src), es[n], src, scope, p.ds[n], m);
      RunLeavesMarkers(es[..n], src, scope, v, db, m);
    }
  }

  /** Marking the last part of a range again changes nothing. */
  lemma {:induction false} MarkedTwice(es: seq<Event>, lo: nat, m: Id, before: Option<Mark>, src: Identity)
    requires lo <= |es|
    ensures LastMark(es[lo..], m, LastMark(es, m, before, src), src) == LastMark(es, m, before, src)
  {
    if lo < |es| {
      var n := |es| - 1;
      assert es[lo..][..|es[lo..]| - 1] == es[..n][lo..];
      MarkedTwice(es[..n], lo, m, before, src);
    }
  }

  /** The tables after a run of skips differ from the tables before at most in dedupe markers. */
  lemma SkipsOnlyMark(es: seq<Event>, src: Identity, scope: set<EventType>, db: DB, start: int)
    requires Persistent(src) && UniqueRows(db.rows) && PassesChecks(es, src, scope, start)
    requires forall i :: 0 <= i < |es| ==> Settled(db, es[i], src)
    ensures var p := PlanAll(es, src, scope, EagerView(db, start));
            p.Planned? && AllSkipped(p.ds) &&
            var out := ApplyAll(db, es, p.ds, src);
            SameButMarkers(out, db) &&
            forall m :: m !in db.rows && m !in db.tombs ==> Get(out.marks, m) == LastMark(es, m, Get(db.marks, m), src)
  {
    var v := EagerView(db, start);
    SettledRangeSkips(es, src, scope, db, start, v);
    forall m | m !in db.rows && m !in db.tombs
      ensures Get(ApplyAll(db, es, PlanAll(es, src, scope, v).ds, src).marks, m) == LastMark(es, m, Get(db.marks, m), src)
    {
      RunLeavesMarkers(es, src, scope, v, db, m);
    }
  }

  /** Two tables that are the same but for markers, and have those in common too, are equal. */
  lemma SameMarkersToo(a: DB, b: DB)
    requires SameButMarkers(a, b) && forall m :: m !in b.rows && m !in b.tombs ==> Get(a.marks, m) == Get(b.marks, m)
    ensures a == b
  {
    forall m ensures Get(a.marks, m) == Get(b.marks, m) {}
    SameGets(a.marks, b.marks);
  }

  lemma SameGets<K, V>(a: map<K, V>, b: map<K, V>)
    requires forall k :: Get(a, k) == Get(b, k)
    ensures a == b
  {
    forall k | k in a ensures k in b && a[k] == b[k] { assert Get(a, k) == Get(b, k); }
    forall k | k in b ensures k in a { assert Get(a, k) == Get(b, k); }
  }

  /** The last part of a settled range, replayed again, changes nothing at all. */
  lemma SettledEndChangesNothing(es: seq<Event>, lo: nat, src: Identity, scope: set<EventType>, db: DB, start: int, before: map<Id, Mark>)
    requires Persistent(src) && UniqueRows(db.rows) && lo <= |es| && PassesChecks(es[lo..], src, scope, start)
    requires forall i :: lo <= i < |es| ==> Settled(db, es[i], src)
    requires forall m :: m !in db.rows && m !in db.tombs ==> Get(db.marks, m) == LastMark(es, m, Get(before, m), src)
    ensures var p := PlanAll(es[lo..], src, scope, EagerView(db, start));
            p.Planned? && AllSkipped(p.ds) && ApplyAll(db, es[lo..], p.ds, src) == db
  {
    SkipsOnlyMark(es[lo..], src, scope, db, start);
    var out := ApplyAll(db, es[lo..], PlanAll(es[lo..], src, scope, EagerView(db, start)).ds, src);
    forall m | m !in db.rows && m !in db.tombs ensures Get(out.marks, m) == Get(db.marks, m) {
      MarkedTwice(es, lo, m, Get(before, m), src);
    }
    SameMarkersToo(out, db);
  }
}
