/** When replaying a range a second time changes nothing: exactly unless a dedupe marker made the
    first run pass over events of an id that the range creates later. */
module Repetition {
  import opened Records
  import opened Planner
  import opened Execution
  import opened Idempotence
  import opened Composition

  /** The index of the first create of an id, or -1. */
  function BirthOf(es: seq<Event>, m: Id): int {
    if es == [] then -1
    else
      var n := |es| - 1;
      var b := BirthOf(es[..n], m);
      if b >= 0 then b else if es[n].id == m && es[n].etype.Created? then n else -1
  }

  lemma {:induction false} BirthIs(es: seq<Event>, m: Id)
    ensures -1 <= BirthOf(es, m) < |es|
    ensures BirthOf(es, m) >= 0 ==> es[BirthOf(es, m)].id == m && es[BirthOf(es, m)].etype.Created?
    ensures forall i :: 0 <= i < |es| && es[i].id == m && es[i].etype.Created? ==> 0 <= BirthOf(es, m) <= i
  {
    if es != [] {
      var n := |es| - 1;
      BirthIs(es[..n], m);
      forall i | 0 <= i < |es| && es[i].id == m && es[i].etype.Created? ensures 0 <= BirthOf(es, m) <= i {
        if i < n { assert es[..n][i] == es[i]; }
      }
    }
  }

  lemma {:induction false} BirthInPrefix(es: seq<Event>, k: nat, m: Id)
    requires k <= |es|
    ensures BirthOf(es[..k], m) == if BirthOf(es, m) < k then BirthOf(es, m) else -1
  {
    BirthIs(es, m);
    if k == |es| {
      assert es[..k] == es;
    } else {
      assert es[..|es| - 1][..k] == es[..k];
      BirthInPrefix(es[..|es| - 1], k, m);
      BirthIs(es[..|es| - 1], m);
    }
  }

  /** No delete of the id comes after position `j`. */
  ghost predicate Survives(es: seq<Event>, m: Id, j: int) {
    forall k :: 0 <= k < |es| && j < k && es[k].id == m ==> !es[k].etype.Deleted?
  }

  /** The target has neither a row nor a tombstone of the id. */
  predicate Unheard(db: DB, m: Id) {
    m !in db.rows && m !in db.tombs
  }

  /** Event `i` is of an id that the target does not know but for a dedupe marker; a create of that
      id comes later and survives the range; and the event asks for more than that create's row. */
  ghost predicate Unsettling(es: seq<Event>, i: nat, db: DB, src: Identity)
    requires i < |es|
  {
    var m := es[i].id;
    BirthIs(es, m);
    var j := BirthOf(es, m);
    Unheard(db, m) && LegacyMarker(Get(db.marks, m), src) && i < j && Survives(es, m, j) && Upsets(es[i], es[j].rec.ns)
  }

  /** No event of the range from position `lo` on is unsettling. */
  ghost predicate Repeatable(es: seq<Event>, lo: nat, db: DB, src: Identity) {
    forall i {:trigger es[i]} :: lo <= i < |es| ==> !Unsettling(es, i, db, src)
  }

  lemma UnmarkedIsRepeatable(es: seq<Event>, lo: nat, db: DB, src: Identity)
    requires NoLegacyMarks(db.marks)
    ensures Repeatable(es, lo, db, src)
  {
    forall i | lo <= i < |es| ensures !Unsettling(es, i, db, src) {}
  }

  /** One id in a run: it is live or tombstoned exactly if the target knew it or the run has
      created it, and a created one lives on in namespace `ns` until its delete. */
  predicate LifeAs(v: View, db: DB, m: Id, born: bool, alive: bool, ns: string) {
    && (m in v.live || m in v.tombs <==> !Unheard(db, m) || born)
    && (Unheard(db, m) && born ==>
          && (m in v.live <==> alive)
          && (m in v.live ==> v.live[m].ns == ns && m !in v.tombs)
          && (m in v.tombs ==> v.tombs[m].seqNo <= v.prev)
          && m in v.mutated && m in v.created)
  }

  function BirthPlace(es: seq<Event>, m: Id): string {
    var j := BirthOf(es, m);
    if 0 <= j < |es| then es[j].rec.ns else ""
  }

  ghost predicate Alive(es: seq<Event>, m: Id) {
    BirthOf(es, m) >= 0 && Survives(es, m, BirthOf(es, m))
  }

  ghost predicate Life(es: seq<Event>, v: View, db: DB, m: Id) {
    LifeAs(v, db, m, BirthOf(es, m) >= 0, Alive(es, m), BirthPlace(es, m))
  }

  lemma SurvivesSnoc(past: seq<Event>, e: Event, m: Id, j: int)
    requires 0 <= j < |past|
    ensures Survives(past + [e], m, j) <==> Survives(past, m, j) && !(e.id == m && e.etype.Deleted?)
  {
    var es := past + [e];
    assert forall k :: 0 <= k < |past| ==> es[k] == past[k];
    if e.id == m && e.etype.Deleted? { assert es[|past|] == e; }
  }

  lemma BirthSnoc(past: seq<Event>, e: Event, m: Id)
    ensures BirthOf(past + [e], m) ==
            if BirthOf(past, m) >= 0 then BirthOf(past, m) else if e.id == m && e.etype.Created? then |past| else -1
  {
    assert (past + [e])[..|past|] == past;
  }

  predicate IsBirth(e: Event, m: Id) {
    e.id == m && e.etype.Created?
  }

  /** How one more event changes what is known of an id. */
  lemma LifeSnoc(past: seq<Event>, e: Event, m: Id)
    ensures BirthOf(past + [e], m) >= 0 <==> BirthOf(past, m) >= 0 || IsBirth(e, m)
    ensures Alive(past + [e], m) <==>
            if BirthOf(past, m) >= 0 then Alive(past, m) && !(e.id == m && e.etype.Deleted?) else IsBirth(e, m)
    ensures BirthPlace(past + [e], m) ==
            if BirthOf(past, m) >= 0 then BirthPlace(past, m) else if IsBirth(e, m) then e.rec.ns else ""
  {
    BirthSnoc(past, e, m);
    BirthIs(past, m);
    if BirthOf(past, m) >= 0 {
      SurvivesSnoc(past, e, m, BirthOf(past, m));
    } else if IsBirth(e, m) {
      assert Survives(past + [e], m, |past|);
    }
  }

  /** What an accepted event does to an id that the run has created. */
  lemma CreatedStep(v: View, e: Event, src: Identity, scope: set<EventType>, d: Disposition, ns: string)
    requires Persistent(src) && Disposed(e, src, scope, v) == Ok(d) && Reconstructing(e.etype)
    requires e.id in v.mutated && e.id in v.created
    requires e.id in v.live ==> v.live[e.id].ns == ns && e.id !in v.tombs
    requires e.id !in v.live ==> e.id in v.tombs
    requires e.id in v.tombs ==> v.tombs[e.id].seqNo <= v.prev
    ensures e.id in v.live && (d.ApplyDelete? <==> e.etype.Deleted?) && (IsApply(d) || d.SkipIdempotent?)
    ensures e.rec.ns == ns
  {
  }

  /** What an accepted event does to an id that is neither live nor tombstoned. */
  lemma UnknownStep(v: View, e: Event, src: Identity, scope: set<EventType>, d: Disposition)
    requires Persistent(src) && Disposed(e, src, scope, v) == Ok(d) && Reconstructing(e.etype)
    requires e.id !in v.live && e.id !in v.tombs
    ensures d == if e.etype.Created? then ApplyCreate else SkipDeduped
    ensures d.SkipDeduped? ==> LegacyMarker(Get(v.marks, e.id), src)
  {
  }

  lemma LifeAfterBirth(v: View, e: Event, db: DB, src: Identity, scope: set<EventType>, d: Disposition, alive: bool, ns: string)
    requires Persistent(src) && LifeAs(v, db, e.id, true, alive, ns) && Unheard(db, e.id)
    requires Disposed(e, src, scope, v) == Ok(d) && Reconstructing(e.etype)
    ensures LifeAs(Effect(v, e, d, src), db, e.id, true, alive && !e.etype.Deleted?, ns)
  {
    CreatedStep(v, e, src, scope, d, ns);
    SkipsAdvance(v, e, src, scope, d);
  }

  lemma LifeBeforeBirth(v: View, e: Event, db: DB, src: Identity, scope: set<EventType>, d: Disposition, ns: string)
    requires Persistent(src) && LifeAs(v, db, e.id, false, false, ns) && Unheard(db, e.id)
    requires Disposed(e, src, scope, v) == Ok(d) && Reconstructing(e.etype)
    ensures LifeAs(Effect(v, e, d, src), db, e.id, e.etype.Created?, e.etype.Created?, if e.etype.Created? then e.rec.ns else "")
  {
    UnknownStep(v, e, src, scope, d);
  }

  /** An event of another id, or one that is no state transition. */
  lemma LifeElsewhere(v: View, e: Event, db: DB, src: Identity, scope: set<EventType>, d: Disposition, m: Id, born: bool, alive: bool, ns: string)
    requires LifeAs(v, db, m, born, alive, ns) && Disposed(e, src, scope, v) == Ok(d)
    requires e.id != m || !Reconstructing(e.etype)
    ensures LifeAs(Effect(v, e, d, src), db, m, born, alive, ns)
  {
    SkipsAdvance(v, e, src, scope, d);
  }

  /** An event of an id that the target knew from the start. */
  lemma LifeOfKnown(v: View, e: Event, db: DB, src: Identity, d: Disposition, born: bool, alive: bool, ns: string, b: bool, a: bool, k: string)
    requires LifeAs(v, db, e.id, born, alive, ns) && !Unheard(db, e.id)
    ensures LifeAs(Effect(v, e, d, src), db, e.id, b, a, k)
  {
  }

  lemma LifeStep(past: seq<Event>, e: Event, v: View, db: DB, src: Identity, scope: set<EventType>, d: Disposition, m: Id)
    requires Persistent(src) && Life(past, v, db, m) && Disposed(e, src, scope, v) == Ok(d)
    ensures Life(past + [e], Effect(v, e, d, src), db, m)
  {
    LifeSnoc(past, e, m);
    var born, alive, ns := BirthOf(past, m) >= 0, Alive(past, m), BirthPlace(past, m);
    if e.id != m || !Reconstructing(e.etype) {
      LifeElsewhere(v, e, db, src, scope, d, m, born, alive, ns);
    } else if !Unheard(db, m) {
      LifeOfKnown(v, e, db, src, d, born, alive, ns, BirthOf(past + [e], m) >= 0, Alive(past + [e], m), BirthPlace(past + [e], m));
    } else if born {
      LifeAfterBirth(v, e, db, src, scope, d, alive, ns);
    } else {
      LifeBeforeBirth(v, e, db, src, scope, d, ns);
    }
  }

  lemma {:induction false} LivesAreTracked(es: seq<Event>, src: Identity, scope: set<EventType>, db: DB, start: int, m: Id)
    requires Persistent(src) && UniqueRows(db.rows) && PlanAll(es, src, scope, EagerView(db, start)).Planned?
    ensures Life(es, PlanAll(es, src, scope, EagerView(db, start)).view, db, m)
  {
    if es != [] {
      var n := |es| - 1;
      LivesAreTracked(es[..n], src, scope, db, start, m);
      var q, p := PlanAll(es[..n], src, scope, EagerView(db, start)), PlanAll(es, src, scope, EagerView(db, start));
      LifeStep(es[..n], es[n], q.view, db, src, scope, p.ds[n], m);
      assert es == es[..n] + [es[n]];
    }
  }

  /** The dispositions of a prefix. */
  lemma {:induction false} PlanOfPrefix(es: seq<Event>, k: nat, src: Identity, scope: set<EventType>, v: View)
    requires k <= |es| && PlanAll(es, src, scope, v).Planned?
    ensures PlanAll(es[..k], src, scope, v).Planned?
    ensures PlanAll(es[..k], src, scope, v).ds == PlanAll(es, src, scope, v).ds[..k]
  {
    if k == |es| {
      assert es[..k] == es;
    } else {
      assert es[..|es| - 1][..k] == es[..k];
      PlanOfPrefix(es[..|es| - 1], k, src, scope, v);
    }
  }

  /** The decision about the event after a prefix. */
  lemma PlanAfterPrefix(es: seq<Event>, k: nat, src: Identity, scope: set<EventType>, v: View)
    requires k < |es| && PlanAll(es, src, scope, v).Planned?
    ensures PlanAll(es[..k], src, scope, v).Planned?
    ensures Disposed(es[k], src, scope, PlanAll(es[..k], src, scope, v).view) == Ok(PlanAll(es, src, scope, v).ds[k])
  {
    PlanOfPrefix(es, k + 1, src, scope, v);
    PlanOfPrefix(es, k, src, scope, v);
    assert es[..k + 1][..k] == es[..k];
    assert PlanAll(es[..k + 1], src, scope, v).ds[k] == PlanAll(es, src, scope, v).ds[k];
  }

  lemma {:induction false} PlanKeepsMarks(es: seq<Event>, src: Identity, scope: set<EventType>, v: View)
    requires PlanAll(es, src, scope, v).Planned?
    ensures PlanAll(es, src, scope, v).view.marks == v.marks
  {
    if es != [] { PlanKeepsMarks(es[..|es| - 1], src, scope, v); }
  }

  lemma DedupedStep(v: View, e: Event, src: Identity, scope: set<EventType>, d: Disposition)
    requires Persistent(src) && Disposed(e, src, scope, v) == Ok(d)
    ensures d.SkipDeduped? <==> (e.etype.Updated? || e.etype.Deleted?) && e.id !in v.live && e.id !in v.tombs
    ensures d.SkipDeduped? ==> LegacyMarker(Get(v.marks, e.id), src)
  {
    if d.SkipDeduped? { ChangesAreAdmitted(v, e, src, scope, d); }
    if Reconstructing(e.etype) && e.id !in v.live && e.id !in v.tombs { UnknownStep(v, e, src, scope, d); }
  }

  lemma UnbornBefore(es: seq<Event>, i: nat)
    requires i < |es| && !es[i].etype.Created?
    ensures BirthOf(es[..i], es[i].id) < 0 <==> BirthOf(es, es[i].id) < 0 || i < BirthOf(es, es[i].id)
  {
    BirthInPrefix(es, i, es[i].id);
    BirthIs(es, es[i].id);
  }

  /** What a run knows of an event's id before the event. */
  lemma KnownBefore(es: seq<Event>, i: nat, src: Identity, scope: set<EventType>, db: DB, start: int)
    requires Persistent(src) && UniqueRows(db.rows) && PlanAll(es, src, scope, EagerView(db, start)).Planned? && i < |es|
    ensures var q, m := PlanAll(es[..i], src, scope, EagerView(db, start)), es[i].id;
            q.Planned? && (m in q.view.live || m in q.view.tombs <==> !Unheard(db, m) || BirthOf(es[..i], m) >= 0) &&
            q.view.marks == db.marks
  {
    PlanOfPrefix(es, i, src, scope, EagerView(db, start));
    PlanKeepsMarks(es[..i], src, scope, EagerView(db, start));
    LivesAreTracked(es[..i], src, scope, db, start, es[i].id);
  }

  /** An event was deduplicated exactly if it is a change of an unknown id before its birth. */
  lemma DedupedExactly(es: seq<Event>, i: nat, src: Identity, scope: set<EventType>, db: DB, start: int)
    requires Persistent(src) && UniqueRows(db.rows) && PlanAll(es, src, scope, EagerView(db, start)).Planned? && i < |es|
    ensures var p, m := PlanAll(es, src, scope, EagerView(db, start)), es[i].id;
            (p.ds[i].SkipDeduped? <==>
              Unheard(db, m) && (es[i].etype.Updated? || es[i].etype.Deleted?) && (BirthOf(es, m) < 0 || i < BirthOf(es, m))) &&
            (p.ds[i].SkipDeduped? ==> LegacyMarker(Get(db.marks, m), src))
  {
    KnownBefore(es, i, src, scope, db, start);
    PlanAfterPrefix(es, i, src, scope, EagerView(db, start));
    DedupedStep(PlanAll(es[..i], src, scope, EagerView(db, start)).view, es[i], src, scope,
                PlanAll(es, src, scope, EagerView(db, start)).ds[i]);
    if !es[i].etype.Created? { UnbornBefore(es, i); }
  }

  /** The upset events are the unsettling ones. */
  lemma UpsetExactly(es: seq<Event>, i: nat, src: Identity, scope: set<EventType>, db: DB, start: int)
    requires Persistent(src) && UniqueRows(db.rows) && PlanAll(es, src, scope, EagerView(db, start)).Planned? && i < |es|
    ensures var p := PlanAll(es, src, scope, EagerView(db, start));
            |p.ds| == |es| && (Upset(p.view, es[i], p.ds[i]) <==> Unsettling(es, i, db, src))
  {
    DedupedExactly(es, i, src, scope, db, start);
    LivesAreTracked(es, src, scope, db, start, es[i].id);
    BirthIs(es, es[i].id);
  }

  lemma EffectKeepsGraves(v: View, e: Event, src: Identity, scope: set<EventType>, d: Disposition, m: Id)
    requires Persistent(src) && Disposed(e, src, scope, v) == Ok(d) && m in v.tombs
    ensures m in Effect(v, e, d, src).tombs && Effect(v, e, d, src).tombs[m] == v.tombs[m]
  {
    if IsApply(d) { ChangesAreAdmitted(v, e, src, scope, d); }
  }

  /** A simulated tombstone stays as it is to the end of the run. */
  lemma {:induction false} GraveStays(es: seq<Event>, k: nat, src: Identity, scope: set<EventType>, v: View, m: Id)
    requires Persistent(src) && k <= |es| && PlanAll(es, src, scope, v).Planned?
    requires PlanAll(es[..k], src, scope, v).Planned? && m in PlanAll(es[..k], src, scope, v).view.tombs
    ensures m in PlanAll(es, src, scope, v).view.tombs
    ensures PlanAll(es, src, scope, v).view.tombs[m] == PlanAll(es[..k], src, scope, v).view.tombs[m]
  {
    if k == |es| {
      assert es[..k] == es;
    } else {
      var n := |es| - 1;
      assert es[..n][..k] == es[..k];
      GraveStays(es[..n], k, src, scope, v, m);
      EffectKeepsGraves(PlanAll(es[..n], src, scope, v).view, es[n], src, scope, PlanAll(es, src, scope, v).ds[n], m);
    }
  }

  /** An upset event is a delete, or an update that is refused. */
  lemma UpsetIsRefused(e: Event, src: Identity, scope: set<EventType>, v: View, d: Disposition)
    requires Disposed(e, src, scope, v) == Ok(d)
    requires e.id in v.live && e.id !in v.tombs && Upsets(e, v.live[e.id].ns)
    ensures d.ApplyDelete?
  {
  }

  lemma BuriedStaysBuried(e: Event, src: Identity, scope: set<EventType>, v: View)
    requires e.etype.Created? && e.id in v.tombs && v.tombs[e.id].seqNo < e.seqNo
    ensures Disposed(e, src, scope, v).Err?
  {
  }

  /** The view before the first unsettled event shows the tables the run started on. */
  lemma SkipsShowStart(es: seq<Event>, i: nat, src: Identity, scope: set<EventType>, db: DB, start: int)
    requires UniqueRows(db.rows) && i < |es| && PassesChecks(es, src, scope, start)
    requires forall k :: 0 <= k < i ==> Settled(db, es[k], src)
    ensures var q := PlanAll(es[..i], src, scope, EagerView(db, start));
            q.Planned? && q.view.live == LiveRows(db.rows) && q.view.tombs == Graves(db.tombs)
  {
    ChecksOfPrefix(es, i, src, scope, start);
    assert forall k :: 0 <= k < i ==> es[..i][k] == es[k];
    SettledRangeSkips(es[..i], src, scope, db, start, EagerView(db, start));
  }

  lemma ViewAfter(es: seq<Event>, i: nat, src: Identity, scope: set<EventType>, v: View, d: Disposition)
    requires i < |es| && PlanAll(es[..i], src, scope, v).Planned?
    requires Disposed(es[i], src, scope, PlanAll(es[..i], src, scope, v).view) == Ok(d)
    ensures PlanAll(es[..i + 1], src, scope, v).Planned?
    ensures PlanAll(es[..i + 1], src, scope, v).view == Effect(PlanAll(es[..i], src, scope, v).view, es[i], d, src)
  {
    assert es[..i + 1][..i] == es[..i];
  }

  /** A run that gets past an upset event has buried its record. */
  lemma UpsetIsBuried(es: seq<Event>, i: nat, src: Identity, scope: set<EventType>, v: View)
    requires i < |es| && PlanAll(es, src, scope, v).Planned? && PlanAll(es[..i], src, scope, v).Planned?
    requires var w := PlanAll(es[..i], src, scope, v).view;
             es[i].id in w.live && es[i].id !in w.tombs && Upsets(es[i], w.live[es[i].id].ns)
    ensures var p := PlanAll(es[..i + 1], src, scope, v);
            p.Planned? && es[i].id in p.view.tombs && p.view.tombs[es[i].id].seqNo == es[i].seqNo
  {
    PlanAfterPrefix(es, i, src, scope, v);
    var w, d := PlanAll(es[..i], src, scope, v).view, PlanAll(es, src, scope, v).ds[i];
    UpsetIsRefused(es[i], src, scope, w, d);
    ViewAfter(es, i, src, scope, v, d);
  }

  /** If the first unsettled event is upset and the range gets past it, its record is buried. */
  lemma UpsetBuries(es: seq<Event>, i: nat, src: Identity, scope: set<EventType>, db: DB, start: int)
    requires UniqueRows(db.rows) && i < |es| && PassesChecks(es, src, scope, start)
    requires forall k :: 0 <= k < i ==> Settled(db, es[k], src)
    requires es[i].id in db.rows && es[i].id !in db.tombs && Upsets(es[i], db.rows[es[i].id].ns)
    requires PlanAll(es, src, scope, EagerView(db, start)).Planned?
    ensures var p := PlanAll(es[..i + 1], src, scope, EagerView(db, start));
            p.Planned? && es[i].id in p.view.tombs && p.view.tombs[es[i].id].seqNo == es[i].seqNo
  {
    SkipsShowStart(es, i, src, scope, db, start);
    UpsetIsBuried(es, i, src, scope, EagerView(db, start));
  }

  /** Once a record is buried, its create is refused. */
  lemma CreateAfterBurial(es: seq<Event>, k: nat, j: nat, src: Identity, scope: set<EventType>, v: View)
    requires Persistent(src) && k <= j < |es| && es[j].etype.Created? && PlanAll(es[..k], src, scope, v).Planned?
    requires var w := PlanAll(es[..k], src, scope, v).view; es[j].id in w.tombs && w.tombs[es[j].id].seqNo < es[j].seqNo
    ensures PlanAll(es, src, scope, v).Raised?
  {
    if PlanAll(es, src, scope, v).Planned? {
      PlanAfterPrefix(es, j, src, scope, v);
      assert es[..j][..k] == es[..k];
      GraveStays(es[..j], k, src, scope, v, es[j].id);
      BuriedStaysBuried(es[j], src, scope, PlanAll(es[..j], src, scope, v).view);
    }
  }

  /** A range is refused if its first unsettled event is upset and its record is created later. */
  lemma UpsetBreaks(es: seq<Event>, i: nat, j: nat, src: Identity, scope: set<EventType>, db: DB, start: int)
    requires Persistent(src) && UniqueRows(db.rows) && i < j < |es| && PassesChecks(es, src, scope, start)
    requires forall k :: 0 <= k < i ==> Settled(db, es[k], src)
    requires es[i].id in db.rows && es[i].id !in db.tombs && Upsets(es[i], db.rows[es[i].id].ns)
    requires es[j].id == es[i].id && es[j].etype.Created?
    ensures Replay(es, src, scope, db, start).Err?
  {
    if PlanAll(es, src, scope, EagerView(db, start)).Planned? {
      UpsetBuries(es, i, src, scope, db, start);
      InOrder(es, i, j, src, scope, EagerView(db, start));
      CreateAfterBurial(es, i + 1, j, src, scope, EagerView(db, start));
    }
  }

  lemma InOrder(es: seq<Event>, i: nat, j: nat, src: Identity, scope: set<EventType>, v: View)
    requires i < j < |es| && PlanAll(es, src, scope, v).Planned?
    ensures es[i].seqNo < es[j].seqNo
  {
    PlanAfterPrefix(es, j, src, scope, v);
    PlanAdvances(es[..j], src, scope, v);
    assert es[..j][i] == es[i];
    SkipsAdvance(PlanAll(es[..j], src, scope, v).view, es[j], src, scope, PlanAll(es, src, scope, v).ds[j]);
  }

  /** The first event from `lo` on that is not settled. */
  lemma FirstUnsettled(es: seq<Event>, lo: nat, hi: nat, db: DB, src: Identity) returns (i: nat)
    requires lo <= hi < |es| && !Settled(db, es[hi], src)
    ensures lo <= i <= hi && !Settled(db, es[i], src) && forall k :: lo <= k < i ==> Settled(db, es[k], src)
  {
    i := lo;
    while Settled(db, es[i], src)
      invariant lo <= i <= hi && forall k :: lo <= k < i ==> Settled(db, es[k], src)
      decreases hi - i
    {
      i := i + 1;
    }
  }

  /** After an accepted replay of a range, each of its events is settled unless it is unsettling,
      and an unsettling one meets a live row. */
  lemma SettledExactly(es: seq<Event>, i: nat, src: Identity, scope: set<EventType>, db: DB, start: int)
    requires Persistent(src) && UniqueRows(db.rows) && Replay(es, src, scope, db, start).Ok? && i < |es|
    ensures var after := Replay(es, src, scope, db, start).value;
            (Settled(after, es[i], src) <==> !Unsettling(es, i, db, src)) &&
            (Unsettling(es, i, db, src) ==>
               es[i].id in after.rows && es[i].id !in after.tombs && Upsets(es[i], after.rows[es[i].id].ns))
  {
    var v := EagerView(db, start);
    var p, after := PlanAll(es, src, scope, v), Replay(es, src, scope, db, start).value;
    EagerViewIsCoherent(db, start);
    RunPlaces(es, src, scope, v, db);
    assert Placed(p.view, after, es[i], p.ds[i], src);
    UpsetExactly(es, i, src, scope, db, start);
    if Unsettling(es, i, db, src) { UnsettlingIsLive(es, i, src, scope, db, start); }
  }

  lemma UnsettlingIsLive(es: seq<Event>, i: nat, src: Identity, scope: set<EventType>, db: DB, start: int)
    requires Persistent(src) && UniqueRows(db.rows) && Replay(es, src, scope, db, start).Ok?
    requires i < |es| && Unsettling(es, i, db, src)
    ensures var after := Replay(es, src, scope, db, start).value;
            es[i].id in after.rows && es[i].id !in after.tombs && Upsets(es[i], after.rows[es[i].id].ns)
  {
    var v := EagerView(db, start);
    EagerViewIsCoherent(db, start);
    PlanningIsExact(es, src, scope, v, db);
    LivesAreTracked(es, src, scope, db, start, es[i].id);
    BirthIs(es, es[i].id);
  }

  /** A last part of a range without unsettling events, replayed on the tables the range has led
      to, raises nothing, applies nothing and leaves rows, tombstones and watermarks as they are. */
  lemma EndIsSkipped(es: seq<Event>, lo: nat, src: Identity, scope: set<EventType>, db: DB, start: int, from: int)
    requires Persistent(src) && UniqueRows(db.rows) && lo <= |es| && Repeatable(es, lo, db, src)
    requires Replay(es, src, scope, db, start).Ok? && PassesChecks(es[lo..], src, scope, from)
    ensures var after := Replay(es, src, scope, db, start).value;
            UniqueRows(after.rows) &&
            var p := PlanAll(es[lo..], src, scope, EagerView(after, from));
            p.Planned? && AllSkipped(p.ds) && Replay(es[lo..], src, scope, after, from) == Ok(after)
  {
    var v, after := EagerView(db, start), Replay(es, src, scope, db, start).value;
    ReplayKeepsUnique(es, src, scope, db, start);
    EagerViewIsCoherent(db, start);
    PlanningIsExact(es, src, scope, v, db);
    forall i | lo <= i < |es| ensures Settled(after, es[i], src) {
      SettledExactly(es, i, src, scope, db, start);
    }
    forall m | m !in after.rows && m !in after.tombs ensures Get(after.marks, m) == LastMark(es, m, Get(db.marks, m), src) {
      RunLeavesMarkers(es, src, scope, v, db, m);
    }
    SettledEndChangesNothing(es, lo, src, scope, after, from, db.marks);
  }

  /** The first event of a last part that is not settled is unsettling, and its record is created
      later in that part. */
  lemma FirstIsUnsettling(es: seq<Event>, lo: nat, src: Identity, scope: set<EventType>, db: DB, start: int) returns (i: nat, j: nat)
    requires Persistent(src) && UniqueRows(db.rows) && lo <= |es| && !Repeatable(es, lo, db, src)
    requires Replay(es, src, scope, db, start).Ok?
    ensures lo <= i < j < |es| && Unsettling(es, i, db, src) && es[j].id == es[i].id && es[j].etype.Created?
    ensures forall k :: lo <= k < i ==> Settled(Replay(es, src, scope, db, start).value, es[k], src)
  {
    var after := Replay(es, src, scope, db, start).value;
    var k :| lo <= k < |es| && Unsettling(es, k, db, src);
    SettledExactly(es, k, src, scope, db, start);
    i := FirstUnsettled(es, lo, k, after, src);
    SettledExactly(es, i, src, scope, db, start);
    BirthIs(es, es[i].id);
    j := BirthOf(es, es[i].id);
  }

  /** A last part of a range with an unsettling event is refused on those tables. */
  lemma EndIsRefused(es: seq<Event>, lo: nat, src: Identity, scope: set<EventType>, db: DB, start: int, from: int)
    requires Persistent(src) && UniqueRows(db.rows) && lo <= |es| && !Repeatable(es, lo, db, src)
    requires Replay(es, src, scope, db, start).Ok? && PassesChecks(es[lo..], src, scope, from)
    ensures var after := Replay(es, src, scope, db, start).value;
            UniqueRows(after.rows) && Replay(es[lo..], src, scope, after, from).Err?
  {
    var after := Replay(es, src, scope, db, start).value;
    ReplayKeepsUnique(es, src, scope, db, start);
    var i, j := FirstIsUnsettling(es, lo, src, scope, db, start);
    SettledExactly(es, i, src, scope, db, start);
    UpsetBreaks(es[lo..], i - lo, j - lo, src, scope, after, from);
  }

  /** Replaying a last part of a range again: it changes nothing if no event of it is unsettling,
      and raises otherwise. */
  lemma EndReplaysAgain(es: seq<Event>, lo: nat, src: Identity, scope: set<EventType>, db: DB, start: int, from: int)
    requires Persistent(src) && UniqueRows(db.rows) && lo <= |es|
    requires Replay(es, src, scope, db, start).Ok? && PassesChecks(es[lo..], src, scope, from)
    ensures var after := Replay(es, src, scope, db, start).value;
            UniqueRows(after.rows) &&
            if Repeatable(es, lo, db, src) then Replay(es[lo..], src, scope, after, from) == Ok(after)
            else Replay(es[lo..], src, scope, after, from).Err?
  {
    if Repeatable(es, lo, db, src) {
      EndIsSkipped(es, lo, src, scope, db, start, from);
    } else {
      EndIsRefused(es, lo, src, scope, db, start, from);
    }
  }

  /** Replay is idempotent exactly for repeatable ranges: after a successful replay, replaying the
      same range raises nothing, applies nothing and leaves rows, tombstones and watermarks as they
      are, if no event of the range is unsettling; and it raises if one is. */
  lemma ReplayIsIdempotent(es: seq<Event>, src: Identity, scope: set<EventType>, db: DB, start: int)
    requires Persistent(src) && UniqueRows(db.rows) && Replay(es, src, scope, db, start).Ok?
    ensures var after := Replay(es, src, scope, db, start).value;
            UniqueRows(after.rows) &&
            (Replay(es, src, scope, after, start).Ok? <==> Repeatable(es, 0, db, src)) &&
            (Repeatable(es, 0, db, src) ==>
               Replay(es, src, scope, after, start) == Ok(after) &&
               AllSkipped(PlanAll(es, src, scope, EagerView(after, start)).ds))
  {
    PlannedPassesChecks(es, src, scope, EagerView(db, start));
    assert es[0..] == es;
    EndReplaysAgain(es, 0, src, scope, db, start, start);
    if Repeatable(es, 0, db, src) { EndIsSkipped(es, 0, src, scope, db, start, start); }
  }
}
