/** What a source store writes and logs, and when its log rebuilds it. */
module History {
  import opened Records
  import opened Planner
  import opened Execution
  import opened Idempotence
  import opened Composition
  import opened Repetition

  /** The columns every appended event takes from the store and the clock. */
  datatype Stamp = Stamp(seqNo: int, eventId: string, at: string)

  function CreatedEvent(id: Id, r: Rec, src: Identity, s: Stamp): Event {
    Event(s.seqNo, s.eventId, Created, id, r.ns, s.at, ReconstructingCategory, 1, CreateTransition,
          id, r, r.fp, src, "", "", "", "")
  }

  function UpdatedEvent(id: Id, before: Rec, after: Rec, src: Identity, s: Stamp, reason: string): Event {
    Event(s.seqNo, s.eventId, Updated, id, before.ns, s.at, ReconstructingCategory, 1, UpdateTransition,
          id, after, after.fp, src, before.chash, before.fp, "", reason)
  }

  function DeletedEvent(id: Id, before: Rec, src: Identity, s: Stamp, deletedAt: string, reason: string): Event {
    Event(s.seqNo, s.eventId, Deleted, id, before.ns, s.at, ReconstructingCategory, 1, DeleteTransition,
          id, before, before.fp, src, "", "", deletedAt, reason)
  }

  /** The tables of the source after it has written the row change and logged `e`. */
  function Write(db: DB, e: Event, src: Identity): DB {
    match e.etype
    case Created => db.(rows := db.rows[e.id := e.rec])
    case Updated => db.(rows := db.rows[e.id := e.rec], marks := db.marks[e.id := MarkOf(e, src)])
    case Deleted =>
      DB(db.rows - {e.id}, db.tombs[e.id := TombOf(e, KeptOf(db.rows, e.id))], db.marks - {e.id})
    case Observational => db
    case Unknown => db
  }

  /** The tables a history of writes leads to, when nothing is ever compacted. */
  function Tables(hist: seq<Event>, src: Identity): DB {
    if hist == [] then EMPTY_DB
    else Write(Tables(hist[..|hist| - 1], src), hist[|hist| - 1], src)
  }

  predicate Holder(rows: map<Id, Rec>, ns: string, hash: string, m: Id) {
    m in rows && rows[m].ns == ns && rows[m].chash == hash
  }

  /** No other row holds the pair, as the store checks before it writes a non-empty hash. */
  ghost predicate FreeFor(rows: map<Id, Rec>, r: Rec, id: Id) {
    r.chash != "" ==> forall m :: Holder(rows, r.ns, r.chash, m) ==> m == id
  }

  /** Fingerprints are collision free on what they cover, the identifier among it. */
  predicate Covered(a: Rec, b: Rec) {
    a.fp == b.fp && a.fp != "" ==> a.identifier == b.identifier
  }

  /** `e` is what the source logs for one write on tables `db` (with every tombstone it ever
      had): an add under a fresh id, an update or a delete of a live row, or any other event. */
  ghost predicate Emitted(db: DB, e: Event, src: Identity) {
    var s := Stamp(e.seqNo, e.eventId, e.occurredAt);
    match e.etype
    case Created =>
      e == CreatedEvent(e.id, e.rec, src, s) && !Blank(e.id) && e.id !in db.rows && e.id !in db.tombs &&
      FreeFor(db.rows, e.rec, e.id)
    case Updated =>
      e.id in db.rows && e == UpdatedEvent(e.id, db.rows[e.id], e.rec, src, s, e.reason) &&
      e.rec.ns == db.rows[e.id].ns && FreeFor(db.rows, e.rec, e.id) && e.rec.fp != "" && e.rec.portable &&
      Covered(db.rows[e.id], e.rec)
    case Deleted =>
      e.id in db.rows && e == DeletedEvent(e.id, db.rows[e.id], src, s, e.deletedAt, e.reason)
    case Observational => true
    case Unknown => true
  }

  /** A full history of one source, from its first event on. */
  ghost predicate Sourced(hist: seq<Event>, src: Identity) {
    hist != [] ==>
      var past, e := hist[..|hist| - 1], hist[|hist| - 1];
      Sourced(past, src) && Emitted(Tables(past, src), e, src) &&
      e.seqNo > LastSeq(past, 0) && e.eventId != "" && e.eventId !in IdsOf(past)
  }

  /** What a caller can check of a write before making it, and must, for the write to be
      replayable: the record validates and carries an accepted non-empty hash; a deleted record
      has an identifier and a visible deletion time; other events are known and not mislabelled. */
  predicate Portable(e: Event) {
    match e.etype
    case Created => e.rec.fp != "" && e.rec.chash != "" && e.rec.portable && e.rec.canonicalHash
    case Updated => e.rec.fp != "" && e.rec.chash != "" && e.rec.portable && e.rec.canonicalHash
    case Deleted => e.rec.identifier != "" && e.rec.chash != "" && e.rec.fp != "" && !Blank(DeletedAt(e))
    case Observational => e.category.NoCategory? || e.category.ObservationalCategory?
    case Unknown => false
  }

  /** Rows, tombstones and the index stay consistent in every source history. */
  ghost predicate Consistent(db: DB) {
    && db.rows.Keys !! db.tombs.Keys
    && UniqueRows(db.rows)
    && (forall m <- db.rows :: !Blank(m))
  }

  lemma {:induction false} SourceIsConsistent(hist: seq<Event>, src: Identity)
    requires Sourced(hist, src)
    ensures Consistent(Tables(hist, src))
    ensures forall m <- Tables(hist, src).tombs :: Tables(hist, src).tombs[m].seqNo <= LastSeq(hist, 0)
  {
    if hist != [] {
      var past, e := hist[..|hist| - 1], hist[|hist| - 1];
      SourceIsConsistent(past, src);
      WriteKeepsUnique(Tables(past, src), e, src);
    }
  }

  lemma WriteKeepsUnique(db: DB, e: Event, src: Identity)
    requires UniqueRows(db.rows) && Emitted(db, e, src)
    ensures UniqueRows(Write(db, e, src).rows)
  {
    if e.etype.Created? || e.etype.Updated? {
      assert forall m :: m in db.rows && db.rows[m].ns == e.rec.ns && db.rows[m].chash == e.rec.chash ==> Holder(db.rows, e.rec.ns, e.rec.chash, m);
    }
  }

  /** Two databases agree on what replication promises: identifier, namespace, hash and
      fingerprint of every row, and every tombstone up to its kept metadata. */
  ghost predicate SameState(a: DB, b: DB) {
    && LiveRows(a.rows) == LiveRows(b.rows)
    && a.tombs.Keys == b.tombs.Keys
    && forall m <- a.tombs :: a.tombs[m].(kept := "") == b.tombs[m].(kept := "")
  }

  /** The disposition replication gives a source event: as written, except that an update
      which changes neither hash nor fingerprint is taken for already applied. */
  function Expected(db: DB, e: Event): Disposition {
    match e.etype
    case Created => ApplyCreate
    case Updated =>
      if e.id in db.rows && Holds(LiveOf(db.rows[e.id]), e) then SkipIdempotent else ApplyUpdate
    case Deleted => ApplyDelete
    case Observational => Observed
    case Unknown => Observed
  }

  lemma PortableIffChecked(db: DB, e: Event, src: Identity, prev: int)
    requires Persistent(src) && Emitted(db, e, src) && e.seqNo > prev >= 0
    requires Consistent(db)
    ensures Portable(e) <==> CheckEvent(e, prev, src, ALL_RECONSTRUCTING).None?
  {
    BlankEmpty();
  }

  lemma BlankEmpty()
    ensures Blank("")
  {
  }

  lemma ExpectedCreate(v: View, db: DB, mine: DB, e: Event, src: Identity)
    requires e.etype.Created? && Emitted(mine, e, src) && Portable(e)
    requires Coherent(v, db) && SameState(db, mine)
    ensures DecideCreate(e, src, LocalOf(v, e)) == Ok(ApplyCreate)
  {
    assert e.id !in LiveRows(mine.rows);
    if (e.rec.ns, e.rec.chash) in v.owner {
      var m := v.owner[(e.rec.ns, e.rec.chash)];
      assert m in LiveRows(mine.rows) && LiveRows(mine.rows)[m] == v.live[m];
      assert Holder(mine.rows, e.rec.ns, e.rec.chash, m);
    }
  }

  /** No watermark of an earlier run speaks for the event's id. */
  predicate Unmarked(v: View, e: Event) {
    e.id !in v.marks || e.id in v.mutated
  }

  lemma ExpectedUpdate(v: View, db: DB, mine: DB, e: Event, src: Identity)
    requires e.etype.Updated? && Emitted(mine, e, src) && Portable(e) && Consistent(mine)
    requires Coherent(v, db) && SameState(db, mine) && Unmarked(v, e)
    requires mine.rows[e.id].chash != "" && mine.rows[e.id].fp != ""
    ensures DecideUpdate(e, src, LocalOf(v, e)) == Ok(Expected(db, e))
  {
    assert e.id in LiveRows(mine.rows) && LiveRows(mine.rows)[e.id] == v.live[e.id];
    if (e.rec.ns, e.rec.chash) in v.owner {
      var m := v.owner[(e.rec.ns, e.rec.chash)];
      assert m in LiveRows(mine.rows) && LiveRows(mine.rows)[m] == v.live[m];
      assert Holder(mine.rows, e.rec.ns, e.rec.chash, m);
    }
  }

  lemma ExpectedDelete(v: View, db: DB, mine: DB, e: Event, src: Identity)
    requires e.etype.Deleted? && Emitted(mine, e, src) && Consistent(mine)
    requires Coherent(v, db) && SameState(db, mine)
    ensures DecideDelete(e, src, LocalOf(v, e)) == Ok(ApplyDelete)
  {
    assert e.id in LiveRows(mine.rows) && LiveRows(mine.rows)[e.id] == v.live[e.id];
  }

  lemma LiveRowsStep(rows: map<Id, Rec>, m: Id, r: Rec)
    ensures LiveRows(rows[m := r]) == LiveRows(rows)[m := LiveOf(r)]
    ensures LiveRows(rows - {m}) == LiveRows(rows) - {m}
  {
  }

  lemma FollowsUpdate(db: DB, mine: DB, e: Event, src: Identity)
    requires Emitted(mine, e, src) && SameState(db, mine) && Lands(db, e, Expected(db, e)) && e.etype.Updated?
    ensures SameState(ApplyOne(db, e, Expected(db, e), src), Write(mine, e, src))
  {
    LiveRowsStep(db.rows, e.id, e.rec);
    LiveRowsStep(mine.rows, e.id, e.rec);
    if Expected(db, e).SkipIdempotent? {
      assert LiveRows(mine.rows)[e.id] == LiveRows(db.rows)[e.id];
      assert LiveOf(mine.rows[e.id]) == LiveOf(e.rec);
    }
  }

  lemma FollowsDelete(db: DB, mine: DB, e: Event, src: Identity)
    requires SameState(db, mine) && e.etype.Deleted?
    ensures SameState(ApplyOne(db, e, ApplyDelete, src), Write(mine, e, src))
  {
    LiveRowsStep(db.rows, e.id, e.rec);
    LiveRowsStep(mine.rows, e.id, e.rec);
  }

  /** A step of the replica follows a write of the source. */
  lemma ReplicaFollows(db: DB, mine: DB, e: Event, src: Identity)
    requires Emitted(mine, e, src) && SameState(db, mine) && Lands(db, e, Expected(db, e))
    ensures SameState(ApplyOne(db, e, Expected(db, e), src), Write(mine, e, src))
  {
    match e.etype
    case Created =>
      LiveRowsStep(db.rows, e.id, e.rec);
      LiveRowsStep(mine.rows, e.id, e.rec);
    case Updated => FollowsUpdate(db, mine, e, src);
    case Deleted => FollowsDelete(db, mine, e, src);
    case Observational =>
    case Unknown =>
  }

  /** Rows that later updates can name as their base. */
  ghost predicate Nameable(rows: map<Id, Rec>) {
    forall m <- rows :: rows[m].chash != "" && rows[m].fp != ""
  }

  ghost predicate AllPortable(hist: seq<Event>) {
    forall e <- hist :: Portable(e)
  }

  /** Planning the next source event on a replica that is in the source's state. */
  lemma NextIsExpected(v: View, db: DB, mine: DB, e: Event, src: Identity)
    requires Persistent(src) && Coherent(v, db) && SameState(db, mine) && Consistent(mine) && Nameable(mine.rows)
    requires (e.etype.Updated? ==> Unmarked(v, e)) && Emitted(mine, e, src) && Portable(e) && e.seqNo > v.prev >= 0
    ensures Disposed(e, src, ALL_RECONSTRUCTING, v) == Ok(Expected(db, e))
  {
    PortableIffChecked(mine, e, src, v.prev);
    match e.etype
    case Created => ExpectedCreate(v, db, mine, e, src);
    case Updated => ExpectedUpdate(v, db, mine, e, src);
    case Deleted => ExpectedDelete(v, db, mine, e, src);
    case Observational =>
    case Unknown =>
  }

  /** The replica in progress is in the state `mine` of the source. */
  ghost predicate InStep(v: View, db: DB, mine: DB) {
    Coherent(v, db) && SameState(db, mine) && Nameable(mine.rows) && v.prev >= 0
  }

  lemma NameableNext(mine: DB, e: Event, src: Identity)
    requires Nameable(mine.rows) && Portable(e)
    ensures Nameable(Write(mine, e, src).rows)
  {
  }

  lemma EffectKeeps(v: View, e: Event, d: Disposition, src: Identity)
    ensures Effect(v, e, d, src).marks == v.marks && Effect(v, e, d, src).prev == e.seqNo
  {
  }

  lemma InStepNext(v: View, db: DB, mine: DB, e: Event, src: Identity)
    requires Persistent(src) && InStep(v, db, mine) && Consistent(mine) && Emitted(mine, e, src)
    requires Portable(e) && e.seqNo > v.prev && (e.etype.Updated? ==> Unmarked(v, e))
    ensures var d := Expected(db, e);
            Disposed(e, src, ALL_RECONSTRUCTING, v) == Ok(d) &&
            InStep(Effect(v, e, d, src), ApplyOne(db, e, d, src), Write(mine, e, src))
  {
    var d := Expected(db, e);
    NextIsExpected(v, db, mine, e, src);
    assert Coherent(Effect(v, e, d, src), ApplyOne(db, e, d, src)) && Lands(db, e, d) by {
      StepIsExact(v, db, e, src, ALL_RECONSTRUCTING, d);
    }
    assert SameState(ApplyOne(db, e, d, src), Write(mine, e, src)) by { ReplicaFollows(db, mine, e, src); }
    NameableNext(mine, e, src);
    EffectKeeps(v, e, d, src);
  }

  lemma PlanSnoc(past: seq<Event>, e: Event, src: Identity, scope: set<EventType>, v: View, db: DB)
    requires PlanAll(past, src, scope, v).Planned? && Disposed(e, src, scope, PlanAll(past, src, scope, v).view).Ok?
    ensures var q, p := PlanAll(past, src, scope, v), PlanAll(past + [e], src, scope, v);
            var d := Disposed(e, src, scope, q.view).value;
            p == Planned(q.ds + [d], Effect(q.view, e, d, src)) &&
            ApplyAll(db, past + [e], p.ds, src) == ApplyOne(ApplyAll(db, past, q.ds, src), e, d, src)
  {
    assert (past + [e])[..|past|] == past;
    var q := PlanAll(past, src, scope, v);
    var d := Disposed(e, src, scope, q.view).value;
    assert (q.ds + [d])[..|past|] == q.ds;
  }

  lemma Snoc(hist: seq<Event>) returns (past: seq<Event>, e: Event)
    requires hist != []
    ensures hist == past + [e] && past == hist[..|hist| - 1] && e == hist[|hist| - 1]
  {
    past, e := hist[..|hist| - 1], hist[|hist| - 1];
  }

  /** Replaying a portable history into an empty store never raises and keeps in step. */
  lemma {:induction false} PortableRuns(hist: seq<Event>, src: Identity)
    requires Persistent(src) && Sourced(hist, src) && AllPortable(hist)
    ensures var p := PlanAll(hist, src, ALL_RECONSTRUCTING, EagerView(EMPTY_DB, 0));
            p.Planned? && InStep(p.view, ApplyAll(EMPTY_DB, hist, p.ds, src), Tables(hist, src)) &&
            p.view.prev == LastSeq(hist, 0) && p.view.marks == map[]
  {
    var v0 := EagerView(EMPTY_DB, 0);
    if hist == [] {
      EagerViewIsCoherent(EMPTY_DB, 0);
    } else {
      var past, e := Snoc(hist);
      PortableRuns(past, src);
      SourceIsConsistent(past, src);
      var q := PlanAll(past, src, ALL_RECONSTRUCTING, v0);
      var db, mine := ApplyAll(EMPTY_DB, past, q.ds, src), Tables(past, src);
      assert Emitted(mine, e, src) && e.seqNo > q.view.prev;
      assert Tables(hist, src) == Write(mine, e, src);
      InStepNext(q.view, db, mine, e, src);
      PlanSnoc(past, e, src, ALL_RECONSTRUCTING, v0, EMPTY_DB);
      EffectKeeps(q.view, e, Expected(db, e), src);
    }
  }

  /** A history that replays is portable event by event. */
  lemma {:induction false} RunsArePortable(hist: seq<Event>, src: Identity)
    requires Persistent(src) && Sourced(hist, src)
    requires PlanAll(hist, src, ALL_RECONSTRUCTING, EagerView(EMPTY_DB, 0)).Planned?
    ensures AllPortable(hist)
  {
    if hist != [] {
      var n := |hist| - 1;
      var past, e := hist[..n], hist[n];
      RunsArePortable(past, src);
      PortableRuns(past, src);
      SourceIsConsistent(past, src);
      var q := PlanAll(past, src, ALL_RECONSTRUCTING, EagerView(EMPTY_DB, 0));
      PortableIffChecked(Tables(past, src), e, src, q.view.prev);
      assert hist == past + [e];
    }
  }

  /** Convergence: the untrimmed log of a source replays into an empty target exactly when every
      write was portable, and then the target holds the source's rows and tombstones. */
  lemma ReplayConverges(hist: seq<Event>, src: Identity)
    requires Persistent(src) && Sourced(hist, src)
    ensures Replay(hist, src, ALL_RECONSTRUCTING, EMPTY_DB, 0).Ok? <==> AllPortable(hist)
    ensures AllPortable(hist) ==> SameState(Replay(hist, src, ALL_RECONSTRUCTING, EMPTY_DB, 0).value, Tables(hist, src))
  {
    if AllPortable(hist) { PortableRuns(hist, src); }
    if Replay(hist, src, ALL_RECONSTRUCTING, EMPTY_DB, 0).Ok? { RunsArePortable(hist, src); }
  }

  /** What one more write adds to the replay of a portable history. */
  lemma OneMoreWrite(past: seq<Event>, e: Event, src: Identity)
    requires Persistent(src) && Sourced(past + [e], src) && AllPortable(past) && Portable(e)
    ensures Sourced(past, src) && Emitted(Tables(past, src), e, src)
    ensures var at := Replay(past, src, ALL_RECONSTRUCTING, EMPTY_DB, 0);
            at.Ok? && SameState(at.value, Tables(past, src)) &&
            Replay(past + [e], src, ALL_RECONSTRUCTING, EMPTY_DB, 0) == Ok(ApplyOne(at.value, e, Expected(at.value, e), src))
  {
    assert (past + [e])[..|past|] == past;
    PortableRuns(past, src);
    SourceIsConsistent(past, src);
    var v0 := EagerView(EMPTY_DB, 0);
    var q := PlanAll(past, src, ALL_RECONSTRUCTING, v0);
    InStepNext(q.view, ApplyAll(EMPTY_DB, past, q.ds, src), Tables(past, src), e, src);
    PlanSnoc(past, e, src, ALL_RECONSTRUCTING, v0, EMPTY_DB);
  }

  lemma {:induction false} SourcedPrefix(es: seq<Event>, t: nat, src: Identity)
    requires Sourced(es, src) && t <= |es|
    ensures Sourced(es[..t], src)
    ensures t < |es| ==> Emitted(Tables(es[..t], src), es[t], src)
  {
    if t < |es| {
      SourcedPrefix(es[..|es| - 1], t, src);
      assert es[..|es| - 1][..t] == es[..t];
    } else {
      assert es[..t] == es;
    }
  }

  /** An id that a source has ever stored stays live or tombstoned. */
  lemma {:induction false} KnownStays(hist: seq<Event>, k: nat, src: Identity, m: Id)
    requires k <= |hist| && !Unheard(Tables(hist[..k], src), m)
    ensures !Unheard(Tables(hist, src), m)
  {
    if k < |hist| {
      assert hist[..|hist| - 1][..k] == hist[..k];
      KnownStays(hist[..|hist| - 1], k, src, m);
    } else {
      assert hist[..k] == hist;
    }
  }

  /** A source never creates an id that it has changed before. */
  lemma NoCreateAfterChange(hist: seq<Event>, i: nat, j: nat, src: Identity)
    requires Sourced(hist, src) && i < j < |hist| && (hist[i].etype.Updated? || hist[i].etype.Deleted?)
    ensures !(hist[j].etype.Created? && hist[j].id == hist[i].id)
  {
    SourcedPrefix(hist, i, src);
    SourcedPrefix(hist, j, src);
    assert hist[..j][..i] == hist[..i];
    KnownStays(hist[..j], i, src, hist[i].id);
  }

  /** No stretch of a source's history holds an unsettling event, whatever the target. */
  lemma StretchIsRepeatable(hist: seq<Event>, lo: nat, hi: nat, k: nat, src: Identity, db: DB)
    requires Sourced(hist, src) && lo <= hi <= |hist|
    ensures Repeatable(hist[lo..hi], k, db, src)
  {
    var es := hist[lo..hi];
    forall i | k <= i < |es| ensures !Unsettling(es, i, db, src) {
      if Unsettling(es, i, db, src) {
        BirthIs(es, es[i].id);
        NoCreateAfterChange(hist, lo + i, lo + BirthOf(es, es[i].id), src);
        assert false;
      }
    }
  }

  /** What a source wrote can always be replayed twice: whatever the target and its watermarks, dedupe
      markers included, a stretch of the source's history that replays there replays again, applies
      nothing then and leaves rows, tombstones and watermarks as they are. */
  lemma StretchesReplayTwice(hist: seq<Event>, lo: nat, hi: nat, src: Identity, scope: set<EventType>, db: DB, start: int)
    requires Persistent(src) && Sourced(hist, src) && lo <= hi <= |hist| && UniqueRows(db.rows)
    requires Replay(hist[lo..hi], src, scope, db, start).Ok?
    ensures var after := Replay(hist[lo..hi], src, scope, db, start).value;
            UniqueRows(after.rows) && Replay(hist[lo..hi], src, scope, after, start) == Ok(after) &&
            AllSkipped(PlanAll(hist[lo..hi], src, scope, EagerView(after, start)).ds)
  {
    StretchIsRepeatable(hist, lo, hi, 0, src, db);
    ReplayIsIdempotent(hist[lo..hi], src, scope, db, start);
  }
}
