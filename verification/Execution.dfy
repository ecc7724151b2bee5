/** Pass 2 of replay as a function: what each disposition does to the target's tables when
    they are executed one at a time, and the proof that pass 1 predicts exactly that. */
module Execution {
  import opened Records
  import opened Planner

  /** INSERT OR IGNORE keeps the table when the id or the (namespace, hash) pair is taken. */
  predicate Collides(rows: map<Id, Rec>, id: Id, r: Rec) {
    id in rows || (r.chash != "" && exists m :: m in rows && rows[m].ns == r.ns && rows[m].chash == r.chash)
  }

  function InsertIgnore(rows: map<Id, Rec>, id: Id, r: Rec): map<Id, Rec> {
    if Collides(rows, id, r) then rows else rows[id := r]
  }

  function MarkOf(e: Event, src: Identity): Mark {
    Mark(e.rec.ns, e.rec.chash, e.rec.fp, e.seqNo, e.eventId, src.history)
  }

  function TombOf(e: Event, kept: string): Tomb {
    Tomb(e.rec.ns, e.rec.identifier, e.rec.chash, e.declaredFp, DeletedAt(e), e.seqNo, e.eventId,
         e.origin, kept, e.reason)
  }

  function KeptOf(rows: map<Id, Rec>, id: Id): string {
    if id in rows then rows[id].content else ""
  }

  /** Execute one disposition. */
  function ApplyOne(db: DB, e: Event, d: Disposition, src: Identity): DB {
    match d
    case ApplyCreate =>
      var rows := InsertIgnore(db.rows, e.id, e.rec);
      DB(rows, db.tombs, if e.id in rows then db.marks[e.id := MarkOf(e, src)] else db.marks)
    case ApplyUpdate =>
      if e.id in db.rows
      then DB(db.rows[e.id := e.rec], db.tombs, db.marks[e.id := MarkOf(e, src)])
      else db
    case ApplyDelete =>
      DB(db.rows - {e.id}, db.tombs[e.id := TombOf(e, KeptOf(db.rows, e.id))], db.marks - {e.id})
    case SkipDeduped => db.(marks := db.marks[e.id := MarkOf(e, src).(fp := "")])
    case SkipIdempotent => db
    case Observed => db
  }

  /** Execute a whole plan one disposition at a time. */
  function ApplyAll(db: DB, es: seq<Event>, ds: seq<Disposition>, src: Identity): DB
    requires |es| == |ds|
  {
    if es == [] then db
    else
      var n := |es| - 1;
      ApplyOne(ApplyAll(db, es[..n], ds[..n], src), es[n], ds[n], src)
  }

  /** The statement of `d` changes exactly one row: the insert is not ignored, the update and
      the delete find their row. */
  predicate Lands(db: DB, e: Event, d: Disposition) {
    match d
    case ApplyCreate => !Collides(db.rows, e.id, e.rec)
    case ApplyUpdate => e.id in db.rows
    case ApplyDelete => e.id in db.rows
    case SkipDeduped => true
    case SkipIdempotent => true
    case Observed => true
  }

  function LiveRows(rows: map<Id, Rec>): map<Id, Live> {
    map m | m in rows :: LiveOf(rows[m])
  }

  function Graves(tombs: map<Id, Tomb>): map<Id, Grave> {
    map m | m in tombs :: GraveOf(tombs[m])
  }

  /** `owner` is the index of `live` on (namespace, non-empty hash). */
  ghost predicate OwnerExact(live: map<Id, Live>, owner: map<Pair, Id>) {
    && (forall p <- owner :: p.1 != "" && owner[p] in live && PairOf(live[owner[p]]) == p)
    && (forall m <- live :: live[m].chash != "" ==> PairOf(live[m]) in owner && owner[PairOf(live[m])] == m)
  }

  /** The simulation describes the tables. */
  ghost predicate Coherent(v: View, db: DB) {
    && v.live == LiveRows(db.rows)
    && v.tombs == Graves(db.tombs)
    && OwnerExact(v.live, v.owner)
  }

  /** The index an eager load of the whole target builds. */
  ghost function OwnerOf(rows: map<Id, Rec>): map<Pair, Id>
    requires UniqueRows(rows)
  {
    var named := map m | m in rows && rows[m].chash != "" :: (rows[m].ns, rows[m].chash);
    map p | p in named.Values :: HolderOf(rows, p)
  }

  ghost function HolderOf(rows: map<Id, Rec>, p: Pair): (m: Id)
    requires exists m :: m in rows && rows[m].chash != "" && (rows[m].ns, rows[m].chash) == p
    ensures m in rows && (rows[m].ns, rows[m].chash) == p
  {
    var m :| m in rows && rows[m].chash != "" && (rows[m].ns, rows[m].chash) == p; m
  }

  /** The simulation that planning against the whole target, loaded up front, starts from. */
  ghost function EagerView(db: DB, prev: int): View
    requires UniqueRows(db.rows)
  {
    View(prev, LiveRows(db.rows), OwnerOf(db.rows), Graves(db.tombs), db.marks, {}, {})
  }

  lemma EagerViewIsCoherent(db: DB, prev: int)
    requires UniqueRows(db.rows)
    ensures Coherent(EagerView(db, prev), db)
  {
    var owner := OwnerOf(db.rows);
    var live := LiveRows(db.rows);
    forall m | m in live && live[m].chash != ""
      ensures PairOf(live[m]) in owner && owner[PairOf(live[m])] == m
    {
      var named := map m | m in db.rows && db.rows[m].chash != "" :: (db.rows[m].ns, db.rows[m].chash);
      assert m in named && named[m] == PairOf(live[m]);
    }
  }

  /** Two exact indexes of the same rows are the same map. */
  lemma OwnerIsUnique(live: map<Id, Live>, a: map<Pair, Id>, b: map<Pair, Id>)
    requires OwnerExact(live, a) && OwnerExact(live, b)
    ensures a == b
  {
    forall p | p in a ensures p in b && b[p] == a[p] { assert live[a[p]].chash == p.1; }
    forall p | p in b ensures p in a { assert live[b[p]].chash == p.1; }
  }

  lemma CreateKeepsIndex(live: map<Id, Live>, owner: map<Pair, Id>, id: Id, l: Live)
    requires OwnerExact(live, owner) && id !in live && l.chash != "" && PairOf(l) !in owner
    ensures OwnerExact(live[id := l], owner[PairOf(l) := id])
  {
  }

  lemma DeleteKeepsIndex(live: map<Id, Live>, owner: map<Pair, Id>, id: Id)
    requires OwnerExact(live, owner) && id in live
    ensures OwnerExact(live - {id}, owner - {PairOf(live[id])})
  {
  }

  lemma UpdateKeepsIndex(live: map<Id, Live>, owner: map<Pair, Id>, e: Event)
    requires OwnerExact(live, owner) && e.id in live && e.rec.chash != "" && live[e.id].ns == e.rec.ns
    requires (e.rec.ns, e.rec.chash) in owner ==> owner[(e.rec.ns, e.rec.chash)] == e.id
    ensures OwnerExact(live[e.id := LiveOf(e.rec)], Reindex(owner, e, live[e.id].chash))
  {
    DeleteKeepsIndex(live, owner, e.id);
    var rest, index := live - {e.id}, owner - {PairOf(live[e.id])};
    assert (e.rec.ns, e.rec.chash) !in index;
    CreateKeepsIndex(rest, index, e.id, LiveOf(e.rec));
    assert rest[e.id := LiveOf(e.rec)] == live[e.id := LiveOf(e.rec)];
    assert index[(e.rec.ns, e.rec.chash) := e.id] == Reindex(owner, e, live[e.id].chash);
  }

  /** What an accepted event that changes the target is known to satisfy. */
  ghost predicate Admitted(v: View, e: Event, src: Identity, d: Disposition) {
    && e.rec.chash != "" && e.seqNo > v.prev && e.id != ""
    && e.origin.history == src.history
    && match d
       case ApplyCreate =>
         e.etype.Created? && e.id !in v.live && e.id !in v.tombs && e.declaredFp == e.rec.fp && e.rec.fp != "" &&
         ((e.rec.ns, e.rec.chash) in v.owner ==> v.owner[(e.rec.ns, e.rec.chash)] == e.id)
       case ApplyUpdate =>
         e.etype.Updated? && e.id in v.live && e.id !in v.tombs && e.declaredFp == e.rec.fp && e.rec.fp != "" &&
         v.live[e.id].ns == e.rec.ns && v.live[e.id].chash == e.prevHash && v.live[e.id].fp == e.prevFp &&
         ((e.rec.ns, e.rec.chash) in v.owner ==> v.owner[(e.rec.ns, e.rec.chash)] == e.id)
       case ApplyDelete =>
         e.etype.Deleted? && e.id in v.live && e.id !in v.tombs &&
         v.live[e.id] == Live(e.rec.identifier, e.rec.ns, e.rec.chash, e.declaredFp)
       case SkipDeduped => e.id !in v.live && e.id !in v.tombs && LegacyMarker(Get(v.marks, e.id), src)
       case SkipIdempotent => Reconstructing(e.etype)
       case Observed => false
  }

  lemma ChangesAreAdmitted(v: View, e: Event, src: Identity, scope: set<EventType>, d: Disposition)
    requires Persistent(src) && Disposed(e, src, scope, v) == Ok(d) && !d.Observed?
    ensures Admitted(v, e, src, d)
  {
    assert e.id != "";
  }

  lemma CreateIsExact(v: View, db: DB, e: Event, src: Identity)
    requires Coherent(v, db) && Admitted(v, e, src, ApplyCreate)
    ensures Coherent(Effect(v, e, ApplyCreate, src), ApplyOne(db, e, ApplyCreate, src))
    ensures Lands(db, e, ApplyCreate)
  {
    assert forall m <- db.rows :: db.rows[m].chash != "" ==> PairOf(v.live[m]) in v.owner;
    assert (e.rec.ns, e.rec.chash) !in v.owner;
    CreateKeepsIndex(v.live, v.owner, e.id, LiveOf(e.rec));
    assert v.live[e.id := LiveOf(e.rec)] == LiveRows(db.rows[e.id := e.rec]);
  }

  lemma UpdateIsExact(v: View, db: DB, e: Event, src: Identity)
    requires Coherent(v, db) && Admitted(v, e, src, ApplyUpdate)
    ensures Coherent(Effect(v, e, ApplyUpdate, src), ApplyOne(db, e, ApplyUpdate, src))
    ensures Lands(db, e, ApplyUpdate)
  {
    UpdateKeepsIndex(v.live, v.owner, e);
    assert v.live[e.id := LiveOf(e.rec)] == LiveRows(db.rows[e.id := e.rec]);
  }

  lemma DeleteIsExact(v: View, db: DB, e: Event, src: Identity)
    requires Coherent(v, db) && Admitted(v, e, src, ApplyDelete)
    ensures Coherent(Effect(v, e, ApplyDelete, src), ApplyOne(db, e, ApplyDelete, src))
    ensures Lands(db, e, ApplyDelete)
  {
    DeleteKeepsIndex(v.live, v.owner, e.id);
    assert v.live - {e.id} == LiveRows(db.rows - {e.id});
    var t := TombOf(e, KeptOf(db.rows, e.id));
    assert v.tombs[e.id := GraveOf(t)] == Graves(db.tombs[e.id := t]);
  }

  /** One step: what pass 1 predicts is what the statement does, and the statement lands. */
  lemma StepIsExact(v: View, db: DB, e: Event, src: Identity, scope: set<EventType>, d: Disposition)
    requires Persistent(src) && Coherent(v, db)
    requires Disposed(e, src, scope, v) == Ok(d)
    ensures Coherent(Effect(v, e, d, src), ApplyOne(db, e, d, src))
    ensures Lands(db, e, d)
  {
    if IsApply(d) { ChangesAreAdmitted(v, e, src, scope, d); }
    match d
    case ApplyCreate => CreateIsExact(v, db, e, src);
    case ApplyUpdate => UpdateIsExact(v, db, e, src);
    case ApplyDelete => DeleteIsExact(v, db, e, src);
    case SkipDeduped =>
    case SkipIdempotent =>
    case Observed =>
  }

  lemma CoherentRowsAreUnique(v: View, db: DB)
    requires Coherent(v, db)
    ensures UniqueRows(db.rows)
  {
    forall a, b | a in db.rows && b in db.rows && db.rows[a].chash != "" && db.rows[a].ns == db.rows[b].ns && db.rows[a].chash == db.rows[b].chash
      ensures a == b
    {
      assert PairOf(v.live[a]) == PairOf(v.live[b]);
    }
  }

  /** Every statement of a plan lands in the tables that the ones before it left. */
  predicate LandsAll(db: DB, es: seq<Event>, ds: seq<Disposition>, src: Identity)
    requires |es| == |ds|
  {
    es != [] ==>
      var n := |es| - 1;
      LandsAll(db, es[..n], ds[..n], src) && Lands(ApplyAll(db, es[..n], ds[..n], src), es[n], ds[n])
  }

  /** The last event of an accepted plan: what was planned before it, and its disposition. */
  lemma PlanUnsnoc(es: seq<Event>, src: Identity, scope: set<EventType>, v: View, db: DB)
      returns (past: seq<Event>, e: Event, q: Plan, d: Disposition)
    requires es != [] && PlanAll(es, src, scope, v).Planned?
    ensures es == past + [e] && past == es[..|es| - 1]
    ensures q == PlanAll(past, src, scope, v) && q.Planned? && Disposed(e, src, scope, q.view) == Ok(d)
    ensures PlanAll(es, src, scope, v) == Planned(q.ds + [d], Effect(q.view, e, d, src))
    ensures ApplyAll(db, es, PlanAll(es, src, scope, v).ds, src) == ApplyOne(ApplyAll(db, past, q.ds, src), e, d, src)
  {
    past, e := es[..|es| - 1], es[|es| - 1];
    q := PlanAll(past, src, scope, v);
    d := PlanAll(es, src, scope, v).ds[|past|];
    PlanStep(past, e, src, scope, v);
    assert es == past + [e];
    assert PlanAll(es, src, scope, v).ds[..|past|] == q.ds;
  }

  /** Planning is exact: executing an accepted plan statement by statement gives the tables
      that the simulation describes, and every statement lands. */
  lemma {:induction false} PlanningIsExact(es: seq<Event>, src: Identity, scope: set<EventType>, v: View, db: DB)
    requires Persistent(src) && Coherent(v, db)
    requires PlanAll(es, src, scope, v).Planned?
    ensures var p := PlanAll(es, src, scope, v);
            Coherent(p.view, ApplyAll(db, es, p.ds, src)) && LandsAll(db, es, p.ds, src)
  {
    if es != [] {
      var n := |es| - 1;
      PlanningIsExact(es[..n], src, scope, v, db);
      var q := PlanAll(es[..n], src, scope, v);
      var p := PlanAll(es, src, scope, v);
      assert p.ds[..n] == q.ds;
      StepIsExact(q.view, ApplyAll(db, es[..n], q.ds, src), es[n], src, scope, p.ds[n]);
    }
  }

  /** What a step keeps of the dead: no id becomes live and tombstoned at once, and a tombstone
      stays as it is, without its id coming back. */
  ghost predicate KeepsBuried(before: DB, after: DB) {
    && (before.rows.Keys !! before.tombs.Keys ==> after.rows.Keys !! after.tombs.Keys)
    && (forall m <- before.tombs :: m in after.tombs && after.tombs[m] == before.tombs[m] && (m in after.rows ==> m in before.rows))
  }

  lemma StepKeepsBuried(v: View, db: DB, e: Event, src: Identity, scope: set<EventType>, d: Disposition)
    requires Persistent(src) && Coherent(v, db) && Disposed(e, src, scope, v) == Ok(d)
    ensures KeepsBuried(db, ApplyOne(db, e, d, src))
  {
    if IsApply(d) { ChangesAreAdmitted(v, e, src, scope, d); }
  }

  /** No accepted replay, whatever its window, scope and target, resurrects a record or touches a
      tombstone, and the unique index holds after it. */
  lemma {:induction false} ReplayKeepsBuried(es: seq<Event>, src: Identity, scope: set<EventType>, v: View, db: DB)
    requires Persistent(src) && Coherent(v, db)
    requires PlanAll(es, src, scope, v).Planned?
    ensures var after := ApplyAll(db, es, PlanAll(es, src, scope, v).ds, src);
            KeepsBuried(db, after) && UniqueRows(after.rows)
  {
    PlanningIsExact(es, src, scope, v, db);
    CoherentRowsAreUnique(PlanAll(es, src, scope, v).view, ApplyAll(db, es, PlanAll(es, src, scope, v).ds, src));
    if es != [] {
      var n := |es| - 1;
      ReplayKeepsBuried(es[..n], src, scope, v, db);
      PlanningIsExact(es[..n], src, scope, v, db);
      var q, p := PlanAll(es[..n], src, scope, v), PlanAll(es, src, scope, v);
      assert p.ds[..n] == q.ds;
      StepKeepsBuried(q.view, ApplyAll(db, es[..n], q.ds, src), es[n], src, scope, p.ds[n]);
    }
  }
}
