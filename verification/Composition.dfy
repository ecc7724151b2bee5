/** Replaying a window in steps, each starting from the target's tables, equals replaying it
    in one run. */
module Composition {
  import opened Records
  import opened Planner
  import opened Execution
  import opened Idempotence

  /** Event ids are unique in a log and never empty. */
  ghost predicate DistinctIds(es: seq<Event>) {
    && (forall i :: 0 <= i < |es| ==> es[i].eventId != "")
    && (forall i, j :: 0 <= i < j < |es| ==> es[i].eventId != es[j].eventId)
  }

  /** A run `v` in progress and a run `w` that restarted from the tables at sequence number
      `base`. They agree on rows, index and tombstones; where only `v` remembers touching an
      id, the tables show it: the live row's watermark is not after `base`, the tombstone is
      not after `prev` and belongs to one of the events with the ids `done`. */
  ghost predicate Resumed(v: View, w: View, base: int, done: set<string>, src: Identity) {
    && base <= v.prev == w.prev && v.live == w.live && v.owner == w.owner && v.tombs == w.tombs
    && w.mutated <= v.mutated && w.created <= v.created <= v.mutated
    && (forall m :: m !in v.mutated ==> SameMark(m in v.live, Get(v.marks, m), Get(w.marks, m), src))
    && (forall m <- v.mutated - w.mutated :: m in v.live ==> m in w.marks && w.marks[m].lastSeq <= base)
    && (forall m <- v.mutated :: m !in v.live ==> m in v.tombs)
    && (forall m <- v.mutated :: m in v.tombs ==> v.tombs[m].seqNo <= v.prev && v.tombs[m].eventId in done)
  }

  /** Both runs take the same decision, errors included. */
  lemma SameDecision(v: View, w: View, base: int, done: set<string>, e: Event, src: Identity)
    requires Resumed(v, w, base, done, src) && Reconstructing(e.etype)
    requires e.seqNo > v.prev && e.eventId !in done
    ensures Decide(e, src, LocalOf(v, e)) == Decide(e, src, LocalOf(w, e))
  {
  }

  lemma SameDisposition(v: View, w: View, base: int, done: set<string>, e: Event, src: Identity, scope: set<EventType>)
    requires Resumed(v, w, base, done, src) && e.eventId !in done
    ensures Disposed(e, src, scope, v) == Disposed(e, src, scope, w)
  {
    if CheckEvent(e, v.prev, src, scope).None? && !e.etype.Observational? {
      assert e.seqNo > v.prev;
      SameDecision(v, w, base, done, e, src);
    }
  }

  lemma ResumedStep(v: View, w: View, base: int, done: set<string>, e: Event, src: Identity, scope: set<EventType>, d: Disposition)
    requires Persistent(src) && Resumed(v, w, base, done, src)
    requires Disposed(e, src, scope, v) == Ok(d)
    ensures Resumed(Effect(v, e, d, src), Effect(w, e, d, src), base, done + {e.eventId}, src)
  {
    SkipsAdvance(v, e, src, scope, d);
    if IsApply(d) { ChangesAreAdmitted(v, e, src, scope, d); }
  }

  function IdsOf(es: seq<Event>): set<string> {
    set e | e in es :: e.eventId
  }

  /** Tombstones written by a run carry the ids of its events. */
  ghost predicate TombsFrom(v: View, done: set<string>) {
    && (forall m <- v.mutated :: m !in v.live ==> m in v.tombs)
    && (forall m <- v.mutated :: m in v.tombs ==> v.tombs[m].seqNo <= v.prev && v.tombs[m].eventId in done)
  }

  /** All that a run in progress keeps about the tables it would have written. */
  ghost predicate Tracked(v: View, db: DB, done: set<string>, src: Identity) {
    Coherent(v, db) && MarksTrack(v, db, src) && TombsFrom(v, done)
  }

  lemma TrackedStep(v: View, db: DB, done: set<string>, e: Event, src: Identity, scope: set<EventType>, d: Disposition)
    requires Persistent(src) && Tracked(v, db, done, src) && Disposed(e, src, scope, v) == Ok(d)
    ensures Tracked(Effect(v, e, d, src), ApplyOne(db, e, d, src), done + {e.eventId}, src)
  {
    StepIsExact(v, db, e, src, scope, d);
    MarksTrackStep(v, db, e, src, scope, d);
    TombsFromStep(v, done, e, src, scope, d);
  }

  lemma TombsFromStep(v: View, done: set<string>, e: Event, src: Identity, scope: set<EventType>, d: Disposition)
    requires Persistent(src) && TombsFrom(v, done) && Disposed(e, src, scope, v) == Ok(d)
    ensures TombsFrom(Effect(v, e, d, src), done + {e.eventId})
  {
    SkipsAdvance(v, e, src, scope, d);
    if IsApply(d) { ChangesAreAdmitted(v, e, src, scope, d); }
  }

  lemma IdsOfSnoc(past: seq<Event>, e: Event, done: set<string>)
    ensures done + IdsOf(past + [e]) == done + IdsOf(past) + {e.eventId}
  {
  }

  lemma {:induction false} RunTracks(es: seq<Event>, src: Identity, scope: set<EventType>, v: View, db: DB, done: set<string>)
    requires Persistent(src) && Tracked(v, db, done, src)
    requires PlanAll(es, src, scope, v).Planned?
    ensures Tracked(PlanAll(es, src, scope, v).view, ApplyAll(db, es, PlanAll(es, src, scope, v).ds, src), done + IdsOf(es), src)
  {
    if es == [] {
      assert done + IdsOf(es) == done;
    } else {
      var past, e, q, d := PlanUnsnoc(es, src, scope, v, db);
      RunTracks(past, src, scope, v, db, done);
      TrackedStep(q.view, ApplyAll(db, past, q.ds, src), done + IdsOf(past), e, src, scope, d);
      IdsOfSnoc(past, e, done);
    }
  }

  /** At the point where a run stops, restarting from the tables resumes it. */
  lemma StopResumes(v: View, db: DB, done: set<string>, src: Identity)
    requires Tracked(v, db, done, src)
    ensures UniqueRows(db.rows)
    ensures Resumed(v, EagerView(db, v.prev), v.prev, done, src)
  {
    CoherentRowsAreUnique(v, db);
    EagerViewIsCoherent(db, v.prev);
    OwnerIsUnique(v.live, v.owner, EagerView(db, v.prev).owner);
  }

  /** The rest of the window gives the same dispositions, or the same error, in both runs. */
  lemma {:induction false} RestIsSame(b: seq<Event>, v: View, w: View, base: int, done: set<string>, src: Identity, scope: set<EventType>)
    requires Persistent(src) && Resumed(v, w, base, done, src)
    requires DistinctIds(b) && done !! IdsOf(b)
    ensures var p, q := PlanAll(b, src, scope, v), PlanAll(b, src, scope, w);
            if p.Planned?
            then q.Planned? && p.ds == q.ds && Resumed(p.view, q.view, base, done + IdsOf(b), src)
            else q == p
  {
    if b == [] {
      assert done + IdsOf(b) == done;
    } else {
      var n := |b| - 1;
      assert b == b[..n] + [b[n]];
      assert IdsOf(b) == IdsOf(b[..n]) + {b[n].eventId};
      RestIsSame(b[..n], v, w, base, done, src, scope);
      var p, q := PlanAll(b[..n], src, scope, v), PlanAll(b[..n], src, scope, w);
      if p.Planned? {
        assert b[n].eventId !in done + IdsOf(b[..n]);
        SameDisposition(p.view, q.view, base, done + IdsOf(b[..n]), b[n], src, scope);
        var r := Disposed(b[n], src, scope, p.view);
        if r.Ok? {
          ResumedStep(p.view, q.view, base, done + IdsOf(b[..n]), b[n], src, scope, r.value);
          assert done + IdsOf(b) == done + IdsOf(b[..n]) + {b[n].eventId};
        }
      }
    }
  }

  /** What planning `b` after `p` gives. */
  function Then(p: Plan, b: seq<Event>, src: Identity, scope: set<EventType>): Plan {
    match p
    case Raised(_) => p
    case Planned(ds, w) =>
      match PlanAll(b, src, scope, w)
      case Raised(r) => Raised(r)
      case Planned(ds', w') => Planned(ds + ds', w')
  }

  /** Planning one more event after a plan. */
  function ThenOne(p: Plan, e: Event, src: Identity, scope: set<EventType>): Plan {
    match p
    case Raised(_) => p
    case Planned(ds, w) =>
      match Disposed(e, src, scope, w)
      case Err(r) => Raised(r)
      case Ok(d) => Planned(ds + [d], Effect(w, e, d, src))
  }

  lemma Reassociate<T>(a: seq<T>, b: seq<T>, c: seq<T>)
    ensures a + (b + c) == a + b + c
  {
  }

  lemma ThenSnoc(p: Plan, b: seq<Event>, e: Event, src: Identity, scope: set<EventType>)
    ensures Then(p, b + [e], src, scope) == ThenOne(Then(p, b, src, scope), e, src, scope)
  {
    if p.Planned? {
      PlanStep(b, e, src, scope, p.view);
      var q := PlanAll(b, src, scope, p.view);
      if q.Planned? && Disposed(e, src, scope, q.view).Ok? {
        Reassociate(p.ds, q.ds, [Disposed(e, src, scope, q.view).value]);
      }
    }
  }

  lemma PlanThenOne(es: seq<Event>, e: Event, src: Identity, scope: set<EventType>, v: View)
    ensures PlanAll(es + [e], src, scope, v) == ThenOne(PlanAll(es, src, scope, v), e, src, scope)
  {
    PlanStep(es, e, src, scope, v);
  }

  lemma ThenNothing(p: Plan, src: Identity, scope: set<EventType>)
    ensures Then(p, [], src, scope) == p
  {
    if p.Planned? { assert p.ds + [] == p.ds; }
  }

  lemma {:induction false} PlanConcat(a: seq<Event>, b: seq<Event>, src: Identity, scope: set<EventType>, v: View)
    ensures PlanAll(a + b, src, scope, v) == Then(PlanAll(a, src, scope, v), b, src, scope)
  {
    var p := PlanAll(a, src, scope, v);
    if b == [] {
      assert a + b == a;
      ThenNothing(p, src, scope);
    } else {
      var rest, e := b[..|b| - 1], b[|b| - 1];
      PlanConcat(a, rest, src, scope, v);
      PlanThenOne(a + rest, e, src, scope, v);
      ThenSnoc(p, rest, e, src, scope);
      Reassociate(a, rest, [e]);
      assert b == rest + [e];
    }
  }

  lemma {:induction false} ApplyConcat(db: DB, a: seq<Event>, da: seq<Disposition>, b: seq<Event>, ds: seq<Disposition>, src: Identity)
    requires |a| == |da| && |b| == |ds|
    ensures ApplyAll(db, a + b, da + ds, src) == ApplyAll(ApplyAll(db, a, da, src), b, ds, src)
  {
    if b == [] {
      assert a + b == a && da + ds == da;
    } else {
      var n := |b| - 1;
      ApplyConcat(db, a, da, b[..n], ds[..n], src);
      assert (a + b)[..|a + b| - 1] == a + b[..n] && (da + ds)[..|da + ds| - 1] == da + ds[..n];
    }
  }

  /** One replay of a window from the target's tables: the tables it commits, or the error. */
  ghost function Replay(es: seq<Event>, src: Identity, scope: set<EventType>, db: DB, start: int): Result<DB, Reason>
    requires UniqueRows(db.rows)
  {
    match PlanAll(es, src, scope, EagerView(db, start))
    case Raised(r) => Err(r)
    case Planned(ds, _) => Ok(ApplyAll(db, es, ds, src))
  }

  lemma ReplayKeepsUnique(es: seq<Event>, src: Identity, scope: set<EventType>, db: DB, start: int)
    requires Persistent(src) && UniqueRows(db.rows) && Replay(es, src, scope, db, start).Ok?
    ensures UniqueRows(Replay(es, src, scope, db, start).value.rows)
  {
    EagerViewIsCoherent(db, start);
    PlanningIsExact(es, src, scope, EagerView(db, start), db);
    var p := PlanAll(es, src, scope, EagerView(db, start));
    CoherentRowsAreUnique(p.view, ApplyAll(db, es, p.ds, src));
  }

  /** Replay composes: one run over a + b ends exactly as a run over a followed by a run over b
      that starts again from the committed tables, with the same error if there is one. */
  lemma ReplayComposes(a: seq<Event>, b: seq<Event>, src: Identity, scope: set<EventType>, db: DB, start: int)
    requires Persistent(src) && UniqueRows(db.rows) && DistinctIds(a + b)
    ensures match Replay(a, src, scope, db, start)
            case Err(r) => Replay(a + b, src, scope, db, start) == Err(r)
            case Ok(db1) =>
              UniqueRows(db1.rows) &&
              Replay(a + b, src, scope, db, start) == Replay(b, src, scope, db1, LastSeq(a, start))
  {
    var v := EagerView(db, start);
    PlanConcat(a, b, src, scope, v);
    var p := PlanAll(a, src, scope, v);
    if p.Planned? {
      EagerViewIsCoherent(db, start);
      RunTracks(a, src, scope, v, db, {});
      assert {} + IdsOf(a) == IdsOf(a);
      var db1 := ApplyAll(db, a, p.ds, src);
      StopResumes(p.view, db1, IdsOf(a), src);
      PlanAdvances(a, src, scope, v);
      assert p.view.prev == LastSeq(a, start);
      SplitIds(a, b);
      RestIsSame(b, p.view, EagerView(db1, p.view.prev), p.view.prev, IdsOf(a), src, scope);
      var q := PlanAll(b, src, scope, p.view);
      if q.Planned? {
        PlanAdvances(b, src, scope, p.view);
        ApplyConcat(db, a, p.ds, b, q.ds, src);
      }
    }
  }

  lemma SplitIds(a: seq<Event>, b: seq<Event>)
    requires DistinctIds(a + b)
    ensures DistinctIds(b) && IdsOf(a) !! IdsOf(b)
  {
    var c := a + b;
    assert forall i :: 0 <= i < |b| ==> b[i] == c[|a| + i];
    forall e, f | e in a && f in b ensures e.eventId != f.eventId {
      var i :| 0 <= i < |a| && a[i] == e;
      var j :| 0 <= j < |b| && b[j] == f;
      assert c[i] == e && c[|a| + j] == f;
    }
  }
}
