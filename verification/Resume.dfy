/** Resuming: replay in steps of any sizes, and replay from any earlier position. */
module Resume {
  import opened Records
  import opened Planner
  import opened Execution
  import opened Idempotence
  import opened Composition
  import opened Repetition

  /** The tables after replaying the first `k` events. */
  ghost function After(es: seq<Event>, k: nat, src: Identity, scope: set<EventType>, db: DB, start: int): DB
    requires UniqueRows(db.rows) && k <= |es|
    requires Replay(es[..k], src, scope, db, start).Ok?
  {
    Replay(es[..k], src, scope, db, start).value
  }

  lemma DistinctPart(es: seq<Event>, lo: nat, hi: nat)
    requires DistinctIds(es) && lo <= hi <= |es|
    ensures DistinctIds(es[lo..hi])
  {
  }

  /** A window that replays also replays up to any point, and the rest from there. */
  lemma PrefixReplays(es: seq<Event>, k: nat, src: Identity, scope: set<EventType>, db: DB, start: int)
    requires Persistent(src) && UniqueRows(db.rows) && DistinctIds(es) && k <= |es|
    requires Replay(es, src, scope, db, start).Ok?
    ensures Replay(es[..k], src, scope, db, start).Ok?
    ensures var mid := After(es, k, src, scope, db, start);
            UniqueRows(mid.rows) &&
            Replay(es[k..], src, scope, mid, LastSeq(es[..k], start)) == Replay(es, src, scope, db, start)
  {
    assert es == es[..k] + es[k..];
    ReplayComposes(es[..k], es[k..], src, scope, db, start);
  }

  lemma {:induction false} ReplayKeepsNoLegacy(es: seq<Event>, src: Identity, scope: set<EventType>, v: View, db: DB)
    requires Persistent(src) && Coherent(v, db) && NoLegacyMarks(v.marks) && NoLegacyMarks(db.marks)
    requires PlanAll(es, src, scope, v).Planned?
    ensures var p := PlanAll(es, src, scope, v);
            Coherent(p.view, ApplyAll(db, es, p.ds, src)) && NoLegacyMarks(ApplyAll(db, es, p.ds, src).marks) &&
            p.view.marks == v.marks
  {
    if es != [] {
      var past, e, q, d := PlanUnsnoc(es, src, scope, v, db);
      ReplayKeepsNoLegacy(past, src, scope, v, db);
      StepIsExact(q.view, ApplyAll(db, past, q.ds, src), e, src, scope, d);
      StepKeepsNoLegacy(q.view, ApplyAll(db, past, q.ds, src), e, src, scope, d);
    }
  }

  lemma StepKeepsNoLegacy(v: View, db: DB, e: Event, src: Identity, scope: set<EventType>, d: Disposition)
    requires Persistent(src) && NoLegacyMarks(v.marks) && NoLegacyMarks(db.marks) && Disposed(e, src, scope, v) == Ok(d)
    ensures NoLegacyMarks(ApplyOne(db, e, d, src).marks) && Effect(v, e, d, src).marks == v.marks
  {
    NeverDeduped(v, e, src, scope, d);
    if IsApply(d) { ChangesAreAdmitted(v, e, src, scope, d); }
  }

  /** What a target that has replayed x + y does with y + z: y is skipped if none of its events is
      unsettling, and refused otherwise. */
  lemma ThreeParts(x: seq<Event>, y: seq<Event>, z: seq<Event>, src: Identity, scope: set<EventType>, db: DB, start: int)
    requires Persistent(src) && UniqueRows(db.rows)
    requires DistinctIds(x + y) && DistinctIds(y + z) && DistinctIds((x + y) + z)
    requires Replay(x + y, src, scope, db, start).Ok?
    ensures var at, again := Replay(x + y, src, scope, db, start).value, LastSeq(x, start);
            UniqueRows(at.rows) &&
            if Repeatable(x + y, |x|, db, src)
            then Replay(y + z, src, scope, at, again) == Replay((x + y) + z, src, scope, db, start)
            else Replay(y + z, src, scope, at, again).Err?
  {
    var s := LastSeq(x, start);
    ReplayComposes(x + y, z, src, scope, db, start);
    ReplayComposes(x, y, src, scope, db, start);
    var at, from := Replay(x + y, src, scope, db, start).value, Replay(x, src, scope, db, start).value;
    PlannedPassesChecks(y, src, scope, EagerView(from, s));
    assert (x + y)[|x|..] == y;
    EndReplaysAgain(x + y, |x|, src, scope, db, start, s);
    ReplayComposes(y, z, src, scope, at, s);
    assert LastSeq(x + y, start) == LastSeq(y, s);
  }

  lemma CutInThree(es: seq<Event>, c: nat, t: nat)
    requires c <= t <= |es|
    ensures es[..c] + es[c..t] == es[..t] && es[c..t] + es[t..] == es[c..] && (es[..c] + es[c..t]) + es[t..] == es
    ensures DistinctIds(es) ==> DistinctIds(es[..t]) && DistinctIds(es[c..])
  {
  }

  /** Replay may start from any position `c` that the target has already passed: a target that
      holds the state after `t` events, `c <= t`, ends as a replay of all of them would, in the same
      tables or with the same error, if none of the events it repeats is unsettling. Otherwise it
      is refused. */
  lemma ReplayResumes(es: seq<Event>, c: nat, t: nat, src: Identity, scope: set<EventType>, db: DB, start: int)
    requires Persistent(src) && UniqueRows(db.rows) && DistinctIds(es)
    requires c <= t <= |es| && Replay(es[..t], src, scope, db, start).Ok?
    ensures var at, again := After(es, t, src, scope, db, start), LastSeq(es[..c], start);
            UniqueRows(at.rows) &&
            if Repeatable(es[..t], c, db, src)
            then Replay(es[c..], src, scope, at, again) == Replay(es, src, scope, db, start)
            else Replay(es[c..], src, scope, at, again).Err?
  {
    CutInThree(es, c, t);
    ThreeParts(es[..c], es[c..t], es[t..], src, scope, db, start);
  }

  lemma PartPasses(es: seq<Event>, lo: nat, hi: nat, src: Identity, scope: set<EventType>, db: DB, start: int)
    requires Persistent(src) && UniqueRows(db.rows) && DistinctIds(es)
    requires lo <= hi <= |es| && Replay(es, src, scope, db, start).Ok?
    ensures PassesChecks(es[lo..hi], src, scope, LastSeq(es[..lo], start))
  {
    PrefixReplays(es, hi, src, scope, db, start);
    DistinctPart(es, 0, hi);
    PrefixReplays(es[..hi], lo, src, scope, db, start);
    assert es[..hi][..lo] == es[..lo] && es[..hi][lo..] == es[lo..hi];
    var mid := After(es[..hi], lo, src, scope, db, start);
    PlannedPassesChecks(es[lo..hi], src, scope, EagerView(mid, LastSeq(es[..lo], start)));
  }

  lemma PartIsSettled(es: seq<Event>, lo: nat, hi: nat, src: Identity, scope: set<EventType>, db: DB, start: int)
    requires Persistent(src) && UniqueRows(db.rows) && Repeatable(es, lo, db, src)
    requires lo <= hi <= |es| && Replay(es, src, scope, db, start).Ok?
    ensures forall i :: 0 <= i < hi - lo ==> Settled(Replay(es, src, scope, db, start).value, es[lo..hi][i], src)
  {
    forall i | 0 <= i < hi - lo ensures Settled(Replay(es, src, scope, db, start).value, es[lo..hi][i], src) {
      SettledExactly(es, lo + i, src, scope, db, start);
    }
  }

  /** Any part of a replayed window without unsettling events, replayed again on the final tables,
      is skipped whole. It changes at most the dedupe markers of ids that are neither live nor
      tombstoned: they fall back to the part's last event. */
  lemma PartIsSkipped(es: seq<Event>, lo: nat, hi: nat, src: Identity, scope: set<EventType>, db: DB, start: int)
    requires Persistent(src) && UniqueRows(db.rows) && Repeatable(es, lo, db, src) && DistinctIds(es)
    requires lo <= hi <= |es| && Replay(es, src, scope, db, start).Ok?
    ensures var after := Replay(es, src, scope, db, start).value;
            UniqueRows(after.rows) &&
            var again := Replay(es[lo..hi], src, scope, after, LastSeq(es[..lo], start));
            again.Ok? && SameButMarkers(again.value, after) &&
            forall m :: Unheard(after, m) ==> Get(again.value.marks, m) == LastMark(es[lo..hi], m, Get(after.marks, m), src)
  {
    var after, s := Replay(es, src, scope, db, start).value, LastSeq(es[..lo], start);
    ReplayKeepsUnique(es, src, scope, db, start);
    PartPasses(es, lo, hi, src, scope, db, start);
    PartIsSettled(es, lo, hi, src, scope, db, start);
    SkipsOnlyMark(es[lo..hi], src, scope, after, s);
  }

  /** Without dedupe markers it changes nothing at all. */
  lemma UnmarkedPartIsSkipped(es: seq<Event>, lo: nat, hi: nat, src: Identity, scope: set<EventType>, db: DB, start: int)
    requires Persistent(src) && UniqueRows(db.rows) && NoLegacyMarks(db.marks) && DistinctIds(es)
    requires lo <= hi <= |es| && Replay(es, src, scope, db, start).Ok?
    ensures var after := Replay(es, src, scope, db, start).value;
            UniqueRows(after.rows) && Replay(es[lo..hi], src, scope, after, LastSeq(es[..lo], start)) == Ok(after)
  {
    var after := Replay(es, src, scope, db, start).value;
    UnmarkedIsRepeatable(es, lo, db, src);
    PartIsSkipped(es, lo, hi, src, scope, db, start);
    var again := Replay(es[lo..hi], src, scope, after, LastSeq(es[..lo], start)).value;
    forall m | Unheard(after, m) ensures Get(again.marks, m) == Get(after.marks, m) {
      NotNamed(es, src, scope, db, start, m);
      NoMarkOf(es[lo..hi], m, Get(after.marks, m), src);
    }
    SameMarkersToo(again, after);
  }

  /** Without dedupe markers, no accepted event names an id that ends unknown. */
  lemma NotNamed(es: seq<Event>, src: Identity, scope: set<EventType>, db: DB, start: int, m: Id)
    requires Persistent(src) && UniqueRows(db.rows) && NoLegacyMarks(db.marks)
    requires Replay(es, src, scope, db, start).Ok? && Unheard(Replay(es, src, scope, db, start).value, m)
    ensures forall e <- es :: !(e.id == m && Reconstructing(e.etype))
  {
    var v, after := EagerView(db, start), Replay(es, src, scope, db, start).value;
    EagerViewIsCoherent(db, start);
    RunPlaces(es, src, scope, v, db);
    forall i | 0 <= i < |es| ensures !(es[i].id == m && Reconstructing(es[i].etype)) {
      var p := PlanAll(es, src, scope, v);
      assert Placed(p.view, after, es[i], p.ds[i], src);
      DedupedExactly(es, i, src, scope, db, start);
    }
  }

  lemma {:induction false} NoMarkOf(es: seq<Event>, m: Id, before: Option<Mark>, src: Identity)
    requires forall e <- es :: !(e.id == m && Reconstructing(e.etype))
    ensures LastMark(es, m, before, src) == before
  {
    if es != [] {
      assert es[|es| - 1] in es;
      NoMarkOf(es[..|es| - 1], m, before, src);
    }
  }

  lemma AfterHasNoLegacy(es: seq<Event>, src: Identity, scope: set<EventType>, db: DB, start: int)
    requires Persistent(src) && UniqueRows(db.rows) && NoLegacyMarks(db.marks)
    requires Replay(es, src, scope, db, start).Ok?
    ensures NoLegacyMarks(Replay(es, src, scope, db, start).value.marks)
  {
    EagerViewIsCoherent(db, start);
    ReplayKeepsNoLegacy(es, src, scope, EagerView(db, start), db);
  }

  /** The concatenation of consecutive windows. */
  function Join(parts: seq<seq<Event>>): seq<Event> {
    if parts == [] then [] else parts[0] + Join(parts[1..])
  }

  /** Replay window after window, each from the tables the one before committed. An error
      leaves the tables of the last committed window. */
  ghost function ReplaySteps(parts: seq<seq<Event>>, src: Identity, scope: set<EventType>, db: DB, start: int): (DB, Option<Reason>)
    requires Persistent(src) && UniqueRows(db.rows)
  {
    if parts == [] then (db, None)
    else
      match Replay(parts[0], src, scope, db, start)
      case Err(r) => (db, Some(r))
      case Ok(db') =>
        ReplayKeepsUnique(parts[0], src, scope, db, start);
        ReplaySteps(parts[1..], src, scope, db', LastSeq(parts[0], start))
  }

  /** However a window is cut into steps, the steps end as the single replay does: in the same
      tables, or with the same error. */
  lemma {:induction false} StepsEqualOneReplay(parts: seq<seq<Event>>, src: Identity, scope: set<EventType>, db: DB, start: int)
    requires Persistent(src) && UniqueRows(db.rows) && DistinctIds(Join(parts))
    ensures match Replay(Join(parts), src, scope, db, start)
            case Ok(whole) => ReplaySteps(parts, src, scope, db, start) == (whole, None)
            case Err(r) => ReplaySteps(parts, src, scope, db, start).1 == Some(r)
    decreases |parts|
  {
    if parts != [] {
      var rest := Join(parts[1..]);
      ReplayComposes(parts[0], rest, src, scope, db, start);
      if Replay(parts[0], src, scope, db, start).Ok? {
        var db' := Replay(parts[0], src, scope, db, start).value;
        assert Join(parts)[|parts[0]|..] == rest;
        DistinctPart(Join(parts), |parts[0]|, |Join(parts)|);
        StepsEqualOneReplay(parts[1..], src, scope, db', LastSeq(parts[0], start));
      }
    }
  }

  lemma FirstIsSame(e: Event, src: Identity, scope: set<EventType>, v: View, s: int)
    requires e.seqNo > v.prev && e.seqNo > s
    ensures Disposed(e, src, scope, v) == Disposed(e, src, scope, v.(prev := s))
    ensures forall d :: Effect(v, e, d, src) == Effect(v.(prev := s), e, d, src)
  {
    assert LocalOf(v, e) == LocalOf(v.(prev := s), e);
  }

  lemma PlanOfOne(e: Event, src: Identity, scope: set<EventType>, v: View)
    ensures PlanAll([e], src, scope, v) == ThenOne(Planned([], v), e, src, scope)
  {
    assert [] + [e] == [e];
    PlanThenOne([], e, src, scope, v);
  }

  /** Where the cursor stands between two events of its scope makes no difference. */
  lemma StartIsIrrelevant(es: seq<Event>, src: Identity, scope: set<EventType>, db: DB, a: int, b: int)
    requires UniqueRows(db.rows)
    requires es != [] ==> es[0].seqNo > a && es[0].seqNo > b
    ensures Replay(es, src, scope, db, a) == Replay(es, src, scope, db, b)
  {
    if es != [] {
      var v, e := EagerView(db, a), es[0];
      assert EagerView(db, b) == v.(prev := b) && es == [e] + es[1..];
      FirstIsSame(e, src, scope, v, b);
      PlanOfOne(e, src, scope, v);
      PlanOfOne(e, src, scope, v.(prev := b));
      PlanConcat([e], es[1..], src, scope, v);
      PlanConcat([e], es[1..], src, scope, v.(prev := b));
    }
  }
}
