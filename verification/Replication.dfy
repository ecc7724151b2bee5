/** One replay of a replica from a source: what it refuses, and where it takes a replica that holds part
    of a scope's history. */
module Replication {
  import opened Records
  import opened Planner
  import opened Execution
  import opened Idempotence
  import opened Composition
  import opened Repetition
  import opened Scoping
  import opened Resume
  import opened History
  import opened Retention
  import opened Sources

  /** A replica keeps its tables and the cursor of its last replay. */
  datatype Replica = Replica(db: DB, saved: Option<Cursor>)

  const NEW_REPLICA := Replica(EMPTY_DB, None)

  datatype ReplayError =
    | InvalidBudget
    | BadCursor(cursor: CursorError)
    | NoBase
    | BoundElsewhere
    | Unverifiable
    | Execution(reason: Reason)
    | ForeignRecords

  /** An advanced cursor needs a target that shows it holds that base: a target without a log of
      its own shows it by a saved cursor of the same history that is not behind. */
  predicate HasBase(saved: Option<Cursor>, c: Cursor) {
    c.seqNo > 0 ==> saved.Some? && saved.value.owner == c.owner && saved.value.seqNo >= c.seqNo
  }

  /** The window of a replay: everything in scope after the cursor, or its first `max` events. */
  function Window(es: seq<Event>, ns: Option<string>, after: int, max: Option<nat>): seq<Event> {
    var w := InScope(es, ns, after);
    if max.Some? && max.value < |w| then w[..max.value] else w
  }

  /** The cursor a replay returns and saves. */
  function Advance(c: Cursor, win: seq<Event>): Cursor {
    if win == [] then c else c.(seqNo := win[|win| - 1].seqNo, anchor := win[|win| - 1].eventId)
  }

  /** The two cursors stand on the same spot of the same scope. */
  predicate SameSpot(a: Cursor, b: Cursor) {
    a.owner == b.owner && a.ns == b.ns && a.seqNo == b.seqNo && a.anchor == b.anchor
  }

  /** An empty window at the saved checkpoint keeps that checkpoint as it is. */
  function SavedAfter(saved: Option<Cursor>, c: Cursor, win: seq<Event>): Cursor {
    if win == [] && saved.Some? && SameSpot(saved.value, c) then saved.value else Advance(c, win)
  }

  /** A target whose last replay was from another mount belongs to that one. */
  predicate BoundTo(r: Replica, src: Identity) {
    r.saved.Some? ==> r.saved.value.owner.mount == src.mount
  }

  /** Rows in a target that never replayed might be its own. */
  predicate NeedsGuard(r: Replica) {
    r.saved.None? && r.db.rows != map[]
  }

  /** What identifies a row's content across stores; nothing does for an empty hash. */
  function IdentityKey(r: Rec): Pair {
    (r.ns, if r.chash == "" then "" else r.keyHash)
  }

  /** The identities that a window names. */
  function SourceKeys(win: seq<Event>): set<Pair> {
    set e | e in win && Reconstructing(e.etype) && e.rec.chash != "" :: (e.rec.ns, e.rec.chash)
  }

  predicate Foreign(rows: map<Id, Rec>, keys: set<Pair>) {
    exists m <- rows :: IdentityKey(rows[m]) !in keys
  }

  /** The tables and checkpoint that an accepted cursor leads to, or the error of its window. */
  ghost function Execute(s: Store, r: Replica, c: Cursor, max: Option<nat>): Result<Replica, Reason>
    requires UniqueRows(r.db.rows)
  {
    var win := Window(s.log.events, c.ns, c.seqNo, max);
    match Replay(win, s.identity, c.types, r.db, c.seqNo)
    case Err(e) => Err(e)
    case Ok(db) => Ok(Replica(db, Some(SavedAfter(r.saved, c, win))))
  }

  /** replay_with_cursor from an explicit cursor; a refused replay changes nothing. */
  ghost function ReplayFrom(s: Store, r: Replica, c: Cursor, want: Option<string>, max: Option<nat>): Result<Replica, ReplayError>
    requires UniqueRows(r.db.rows)
  {
    var bad := CheckCursor(s.log, s.identity, c, want);
    if max == Some(0) then Err(InvalidBudget)
    else if bad.Some? then Err(BadCursor(bad.value))
    else if !HasBase(r.saved, c) then Err(NoBase)
    else if !BoundTo(r, s.identity) then Err(BoundElsewhere)
    else if NeedsGuard(r) && max.Some? then Err(Unverifiable)
    else
      match Execute(s, r, c, max)
      case Err(e) => Err(Execution(e))
      case Ok(r') =>
        if NeedsGuard(r) && Foreign(r.db.rows, SourceKeys(Window(s.log.events, c.ns, c.seqNo, max))) then Err(ForeignRecords)
        else Ok(r')
  }

  /** The cursor of a call that names none: the checkpoint, or else the start of the source's log. */
  function Resolve(s: Store, saved: Option<Cursor>, given: Option<Cursor>, want: Option<string>): Result<Cursor, ReplayError> {
    if given.Some? then Ok(given.value)
    else if saved.Some? then Ok(saved.value)
    else if !Persistent(s.identity) then Err(BadCursor(NoPersistentIdentity))
    else if s.log.trimmed > 0 then Err(BadCursor(StaleBase))
    else Ok(Cursor(s.identity, 0, "", want, ALL_RECONSTRUCTING))
  }

  /** replay_with_cursor. */
  ghost function ReplayCall(s: Store, r: Replica, given: Option<Cursor>, want: Option<string>, max: Option<nat>): Result<Replica, ReplayError>
    requires UniqueRows(r.db.rows)
  {
    if max == Some(0) then Err(InvalidBudget)
    else
      match Resolve(s, r.saved, given, want)
      case Err(e) => Err(e)
      case Ok(c) => ReplayFrom(s, r, c, want, max)
  }

  /** Everything in the replica comes from this source. */
  predicate Own(r: Replica, src: Identity) {
    (r.saved.None? ==> r.db == EMPTY_DB) && (r.saved.Some? ==> r.saved.value.owner == src)
  }

  /** The guards never stop a replica that has replayed from this source only. */
  lemma OwnIsNotGuarded(s: Store, r: Replica, c: Cursor, want: Option<string>, max: Option<nat>)
    requires UniqueRows(r.db.rows) && Own(r, s.identity) && max != Some(0)
    ensures ReplayFrom(s, r, c, want, max) ==
            var bad := CheckCursor(s.log, s.identity, c, want);
            if bad.Some? then Err(BadCursor(bad.value))
            else if !HasBase(r.saved, c) then Err(NoBase)
            else match Execute(s, r, c, max) case Err(e) => Err(Execution(e)) case Ok(r') => Ok(r')
  {
  }

  lemma UnboundMeansWhole(s: Store, r: Replica, c: Cursor, want: Option<string>, max: Option<nat>)
    requires UniqueRows(r.db.rows) && NeedsGuard(r) && ReplayFrom(s, r, c, want, max).Ok?
    ensures max == None && c.seqNo <= 0 && !Foreign(r.db.rows, SourceKeys(InScope(s.log.events, c.ns, c.seqNo)))
  {
  }

  /** Some event of the log is about a record of this identity. */
  ghost predicate Names(es: seq<Event>, key: Pair) {
    exists e :: e in es && Reconstructing(e.etype) && (e.rec.ns, e.rec.chash) == key
  }

  /** Rows that a target without a checkpoint holds are only ever replayed over from the start and
      whole, and when each of them is a record of the source. */
  lemma NothingForeignIsAdopted(s: Store, r: Replica, c: Cursor, want: Option<string>, max: Option<nat>)
    requires UniqueRows(r.db.rows) && NeedsGuard(r) && ReplayFrom(s, r, c, want, max).Ok?
    ensures max == None && c.seqNo <= 0 && forall m <- r.db.rows :: Names(s.log.events, IdentityKey(r.db.rows[m]))
  {
    UnboundMeansWhole(s, r, c, want, max);
    InScopeIsPart(s.log.events, c.ns, c.seqNo);
    forall m | m in r.db.rows ensures Names(s.log.events, IdentityKey(r.db.rows[m])) {
      assert IdentityKey(r.db.rows[m]) in SourceKeys(InScope(s.log.events, c.ns, c.seqNo));
    }
  }

  lemma {:induction false} InScopeIsPart(es: seq<Event>, ns: Option<string>, after: int)
    ensures forall e <- InScope(es, ns, after) :: e in es
  {
    if es != [] {
      InScopeIsPart(es[..|es| - 1], ns, after);
      assert es == es[..|es| - 1] + [es[|es| - 1]];
    }
  }

  /** The first `t` events of the replica's scope are what its tables hold, and its saved cursor
      is not past them. */
  ghost predicate Holding(r: Replica, hist: seq<Event>, src: Identity, ns: Option<string>, t: nat) {
    var es := InScope(hist, ns, 0);
    && t <= |es| && Replay(es[..t], src, ALL_RECONSTRUCTING, EMPTY_DB, 0) == Ok(r.db)
    && (r.saved.None? ==> t == 0)
    && (r.saved.Some? ==> Reached(es, r.saved.value.seqNo) <= t)
  }

  /** How many events lie at or before a position. */
  function Reached(es: seq<Event>, s: int): (k: nat)
    ensures k <= |es|
  {
    if es == [] then 0 else if es[|es| - 1].seqNo <= s then |es| else Reached(es[..|es| - 1], s)
  }

  lemma {:induction false} InScopeInOrder(es: seq<Event>, ns: Option<string>, after: int)
    requires Increasing(es)
    ensures Increasing(InScope(es, ns, after))
    ensures forall e <- InScope(es, ns, after) :: e in es && e.seqNo > after
  {
    if es != [] {
      var n := |es| - 1;
      InScopeInOrder(es[..n], ns, after);
      assert forall e <- es[..n] :: e in es && e.seqNo < es[n].seqNo;
    }
  }

  lemma {:induction false} NothingAfter(es: seq<Event>, ns: Option<string>, s: int)
    requires forall e <- es :: e.seqNo <= s
    ensures InScope(es, ns, s) == []
  {
    if es != [] {
      assert es[|es| - 1] in es;
      NothingAfter(es[..|es| - 1], ns, s);
    }
  }

  lemma AllBefore(es: seq<Event>, s: int)
    requires Increasing(es) && es != [] && es[|es| - 1].seqNo <= s
    ensures forall e <- es :: e.seqNo <= s
  {
  }

  /** The window after a position is the scope's events from there on. */
  lemma {:induction false} ScopeFrom(es: seq<Event>, ns: Option<string>, s: int)
    requires Increasing(es) && s >= 0
    ensures Reached(InScope(es, ns, 0), s) <= |InScope(es, ns, 0)|
    ensures InScope(es, ns, s) == InScope(es, ns, 0)[Reached(InScope(es, ns, 0), s)..]
  {
    if es != [] {
      var n := |es| - 1;
      if es[n].seqNo <= s {
        AllBefore(es, s);
        NothingAfter(es, ns, s);
        InScopeInOrder(es, ns, 0);
        AllReached(InScope(es, ns, 0), s);
      } else {
        ScopeFrom(es[..n], ns, s);
        ReachedSnoc(InScope(es[..n], ns, 0), es[n], s);
      }
    }
  }

  lemma ReachedSnoc(past: seq<Event>, e: Event, s: int)
    requires e.seqNo > s
    ensures Reached(past + [e], s) == Reached(past, s)
    ensures (past + [e])[Reached(past, s)..] == past[Reached(past, s)..] + [e]
  {
    assert (past + [e])[..|past|] == past;
  }

  lemma AllReached(es: seq<Event>, s: int)
    requires forall e <- es :: e.seqNo <= s
    ensures Reached(es, s) == |es|
  {
    if es != [] { assert es[|es| - 1] in es; }
  }

  lemma {:induction false} ReachedSplits(es: seq<Event>, s: int)
    requires Increasing(es)
    ensures Reached(es, s) <= |es|
    ensures forall i :: 0 <= i < |es| ==> (es[i].seqNo <= s <==> i < Reached(es, s))
  {
    if es != [] && es[|es| - 1].seqNo > s {
      ReachedSplits(es[..|es| - 1], s);
      assert forall i :: 0 <= i < |es| - 1 ==> es[i] == es[..|es| - 1][i];
    }
  }

  lemma {:induction false} SourcedIncreases(hist: seq<Event>, src: Identity)
    requires Sourced(hist, src)
    ensures Increasing(hist)
  {
    if hist != [] {
      var n := |hist| - 1;
      SourcedIncreases(hist[..n], src);
      assert hist == hist[..n] + [hist[n]];
    }
  }

  lemma {:induction false} SourcedDistinct(hist: seq<Event>, src: Identity)
    requires Sourced(hist, src)
    ensures DistinctIds(hist)
  {
    if hist != [] {
      var n := |hist| - 1;
      SourcedDistinct(hist[..n], src);
      SnocDistinct(hist[..n], hist[n]);
      assert hist == hist[..n] + [hist[n]];
    }
  }

  lemma SnocDistinct(past: seq<Event>, e: Event)
    requires DistinctIds(past) && e.eventId != "" && e.eventId !in IdsOf(past)
    ensures DistinctIds(past + [e])
  {
    assert forall i :: 0 <= i < |past| ==> past[i] in past && past[i].eventId in IdsOf(past);
  }

  lemma {:induction false} InScopeDistinct(es: seq<Event>, ns: Option<string>, after: int)
    requires DistinctIds(es)
    ensures DistinctIds(InScope(es, ns, after))
    ensures forall e <- InScope(es, ns, after) :: e in es
  {
    if es != [] {
      var n := |es| - 1;
      InScopeDistinct(es[..n], ns, after);
      assert forall e <- es[..n] :: e in es && e.eventId != es[n].eventId;
    }
  }

  lemma ReachedLater(es: seq<Event>, a: int, b: int)
    requires Increasing(es) && a <= b
    ensures Reached(es, a) <= Reached(es, b) <= |es|
  {
    ReachedSplits(es, a);
    ReachedSplits(es, b);
  }

  lemma ReachedAt(es: seq<Event>, i: nat)
    requires Increasing(es) && i < |es|
    ensures Reached(es, es[i].seqNo) == i + 1
  {
    ReachedSplits(es, es[i].seqNo);
    if i + 1 < |es| { assert es[i + 1].seqNo > es[i].seqNo; }
  }

  /** Replaying events `lo` to `hi` of a scope on tables that hold its first `t >= lo` events
      gives the tables of the first `max(t, hi)`. */
  lemma PartReplays(es: seq<Event>, lo: nat, hi: nat, t: nat, src: Identity, scope: set<EventType>, at: DB, s: int)
    requires Persistent(src) && Increasing(es) && DistinctIds(es) && lo <= t <= |es| && lo <= hi <= |es|
    requires Replay(es[..t], src, scope, EMPTY_DB, 0) == Ok(at)
    requires s >= 0 && forall i :: lo <= i < |es| ==> es[i].seqNo > s
    ensures UniqueRows(at.rows)
    ensures Replay(es[lo..hi], src, scope, at, s) ==
            if hi <= t then Ok(at) else Replay(es[..hi], src, scope, EMPTY_DB, 0)
  {
    ReplayKeepsUnique(es[..t], src, scope, EMPTY_DB, 0);
    DistinctPart(es, 0, t);
    var base := LastSeq(es[..lo], 0);
    StartIsIrrelevant(es[lo..hi], src, scope, at, s, base);
    if hi <= t {
      UnmarkedPartIsSkipped(es[..t], lo, hi, src, scope, EMPTY_DB, 0);
      assert es[..t][lo..hi] == es[lo..hi] && es[..t][..lo] == es[..lo];
    } else {
      ContinuesPast(es, lo, hi, t, src, scope, at);
    }
  }

  lemma ContinuesPast(es: seq<Event>, lo: nat, hi: nat, t: nat, src: Identity, scope: set<EventType>, at: DB)
    requires Persistent(src) && DistinctIds(es) && lo <= t <= hi <= |es|
    requires Replay(es[..t], src, scope, EMPTY_DB, 0) == Ok(at) && UniqueRows(at.rows)
    ensures Replay(es[lo..hi], src, scope, at, LastSeq(es[..lo], 0)) == Replay(es[..hi], src, scope, EMPTY_DB, 0)
  {
    var part := es[..hi];
    assert part[..t] == es[..t] && part[..lo] == es[..lo] && part[lo..] == es[lo..hi];
    DistinctPart(es, 0, hi);
    UnmarkedIsRepeatable(part[..t], lo, EMPTY_DB, src);
    ReplayResumes(part, lo, t, src, scope, EMPTY_DB, 0);
  }

  /** Every state transition of the window is of a type the cursor names. */
  ghost predicate TypesWithin(es: seq<Event>, types: set<EventType>) {
    forall e <- es :: Reconstructing(e.etype) ==> e.etype in types
  }

  lemma DisposedUnderTypes(e: Event, src: Identity, types: set<EventType>, v: View)
    requires types <= ALL_RECONSTRUCTING
    ensures Disposed(e, src, types, v).Ok? <==>
            Disposed(e, src, ALL_RECONSTRUCTING, v).Ok? && (Reconstructing(e.etype) ==> e.etype in types)
    ensures Disposed(e, src, types, v).Ok? ==> Disposed(e, src, types, v) == Disposed(e, src, ALL_RECONSTRUCTING, v)
  {
  }

  lemma {:induction false} PlanUnderTypes(es: seq<Event>, src: Identity, types: set<EventType>, v: View)
    requires types <= ALL_RECONSTRUCTING
    ensures PlanAll(es, src, types, v).Planned? <==> PlanAll(es, src, ALL_RECONSTRUCTING, v).Planned? && TypesWithin(es, types)
    ensures PlanAll(es, src, types, v).Planned? ==> PlanAll(es, src, types, v) == PlanAll(es, src, ALL_RECONSTRUCTING, v)
  {
    if es != [] {
      var n := |es| - 1;
      PlanUnderTypes(es[..n], src, types, v);
      assert es == es[..n] + [es[n]];
      var q := PlanAll(es[..n], src, ALL_RECONSTRUCTING, v);
      if q.Planned? { DisposedUnderTypes(es[n], src, types, q.view); }
    }
  }

  /** A cursor for fewer event types replays exactly the windows that need no others, and then as
      a cursor for all of them. */
  lemma ReplayUnderTypes(es: seq<Event>, src: Identity, types: set<EventType>, db: DB, start: int)
    requires types <= ALL_RECONSTRUCTING && UniqueRows(db.rows)
    ensures Replay(es, src, types, db, start).Ok? <==> Replay(es, src, ALL_RECONSTRUCTING, db, start).Ok? && TypesWithin(es, types)
    ensures Replay(es, src, types, db, start).Ok? ==> Replay(es, src, types, db, start) == Replay(es, src, ALL_RECONSTRUCTING, db, start)
  {
    PlanUnderTypes(es, src, types, EagerView(db, start));
  }

  /** The part of the tables a scope covers. */
  function Scoped(db: DB, ns: Option<string>): DB {
    match ns
    case None => db
    case Some(n) => DB(RowsIn(db, n), TombsIn(db, n), db.marks)
  }

  lemma PutRow(db: DB, m: Id, r: Rec, n: string)
    ensures RowsIn(db.(rows := db.rows[m := r]), n) == if r.ns == n then RowsIn(db, n)[m := r] else RowsIn(db, n) - {m}
  {
  }

  lemma DropRow(db: DB, m: Id, n: string)
    ensures RowsIn(db.(rows := db.rows - {m}), n) == RowsIn(db, n) - {m}
  {
  }

  lemma PutTomb(db: DB, m: Id, t: Tomb, n: string)
    ensures TombsIn(db.(tombs := db.tombs[m := t]), n) == if t.ns == n then TombsIn(db, n)[m := t] else TombsIn(db, n) - {m}
  {
  }

  /** Row and tombstone tables of a write, seen from one namespace. */
  lemma WriteSeenFrom(db: DB, e: Event, src: Identity, n: string)
    ensures var db' := Write(db, e, src);
            RowsIn(db', n) == (if e.etype.Created? || e.etype.Updated? then (if e.rec.ns == n then RowsIn(db, n)[e.id := e.rec] else RowsIn(db, n) - {e.id})
                               else if e.etype.Deleted? then RowsIn(db, n) - {e.id} else RowsIn(db, n))
    ensures var db' := Write(db, e, src);
            TombsIn(db', n) == if e.etype.Deleted? then
                                 (if e.rec.ns == n then TombsIn(db, n)[e.id := TombOf(e, KeptOf(db.rows, e.id))] else TombsIn(db, n) - {e.id})
                               else TombsIn(db, n)
  {
    PutRow(db, e.id, e.rec, n);
    DropRow(db, e.id, n);
    PutTomb(db, e.id, TombOf(e, KeptOf(db.rows, e.id)), n);
  }

  lemma EmittedInside(db: DB, part: DB, e: Event, src: Identity)
    requires Emitted(db, e, src) && part.rows == RowsIn(db, e.ns) && part.tombs == TombsIn(db, e.ns)
    ensures Emitted(part, e, src)
  {
    if Reconstructing(e.etype) {
      assert e.rec.ns == e.ns;
      assert forall m :: Holder(part.rows, e.rec.ns, e.rec.chash, m) ==> Holder(db.rows, e.rec.ns, e.rec.chash, m);
    }
  }

  /** A write inside a namespace acts on that namespace's tables as on the whole. */
  lemma WriteInside(db: DB, part: DB, e: Event, src: Identity)
    requires Emitted(db, e, src) && part.rows == RowsIn(db, e.ns) && part.tombs == TombsIn(db, e.ns)
    ensures Write(part, e, src).rows == RowsIn(Write(db, e, src), e.ns)
    ensures Write(part, e, src).tombs == TombsIn(Write(db, e, src), e.ns)
  {
    WriteSeenFrom(db, e, src, e.ns);
  }

  /** A write in another namespace does not touch this one. */
  lemma WriteOutside(db: DB, e: Event, src: Identity, n: string)
    requires Emitted(db, e, src) && Consistent(db) && e.ns != n
    ensures RowsIn(Write(db, e, src), n) == RowsIn(db, n) && TombsIn(Write(db, e, src), n) == TombsIn(db, n)
  {
    WriteSeenFrom(db, e, src, n);
    if Reconstructing(e.etype) {
      assert e.id !in RowsIn(db, n);
      assert e.id !in TombsIn(db, n);
    }
  }

  /** `es` is the history of namespace `n` inside `hist`. */
  ghost predicate ScopeMatches(es: seq<Event>, hist: seq<Event>, src: Identity, n: string) {
    && Sourced(es, src) && LastSeq(es, 0) <= LastSeq(hist, 0) && IdsOf(es) <= IdsOf(hist)
    && Tables(es, src).rows == RowsIn(Tables(hist, src), n) && Tables(es, src).tombs == TombsIn(Tables(hist, src), n)
  }

  lemma ScopeStep(es: seq<Event>, past: seq<Event>, e: Event, src: Identity, n: string)
    requires ScopeMatches(es, past, src, n) && Consistent(Tables(past, src)) && Emitted(Tables(past, src), e, src)
    requires e.seqNo > LastSeq(past, 0) && e.eventId != "" && e.eventId !in IdsOf(past)
    requires Tables(past + [e], src) == Write(Tables(past, src), e, src)
    ensures ScopeMatches(if e.ns == n then es + [e] else es, past + [e], src, n)
  {
    var db := Tables(past, src);
    assert IdsOf(past + [e]) == IdsOf(past) + {e.eventId};
    if e.ns == n {
      EmittedInside(db, Tables(es, src), e, src);
      WriteInside(db, Tables(es, src), e, src);
      SnocSourced(es, e, src);
      assert IdsOf(es + [e]) == IdsOf(es) + {e.eventId};
    } else {
      WriteOutside(db, e, src, n);
    }
  }

  /** The events of one namespace are themselves the history of a source, whose tables are that
      namespace's part of the whole. */
  lemma {:induction false} ScopeIsSourced(hist: seq<Event>, src: Identity, n: string)
    requires Sourced(hist, src)
    ensures ScopeMatches(InScope(hist, Some(n), 0), hist, src, n)
  {
    if hist != [] {
      var past, e := Snoc(hist);
      ScopeIsSourced(past, src, n);
      SourceIsConsistent(past, src);
      LastIsPositive(hist, src);
      ScopeStep(InScope(past, Some(n), 0), past, e, src, n);
    }
  }

  lemma LastIsPositive(hist: seq<Event>, src: Identity)
    requires Sourced(hist, src)
    ensures hist != [] ==> LastSeq(hist, 0) > 0
  {
    SourcedIncreases(hist, src);
  }

  lemma SnocSourced(es: seq<Event>, e: Event, src: Identity)
    requires Sourced(es, src) && Emitted(Tables(es, src), e, src)
    requires e.seqNo > LastSeq(es, 0) && e.eventId != "" && e.eventId !in IdsOf(es)
    ensures Sourced(es + [e], src) && Tables(es + [e], src) == Write(Tables(es, src), e, src)
  {
    assert (es + [e])[..|es|] == es;
  }

  lemma ScopeInOrder(hist: seq<Event>, src: Identity, ns: Option<string>)
    requires Sourced(hist, src)
    ensures Increasing(hist) && Increasing(InScope(hist, ns, 0)) && DistinctIds(InScope(hist, ns, 0))
  {
    SourcedIncreases(hist, src);
    SourcedDistinct(hist, src);
    InScopeInOrder(hist, ns, 0);
    InScopeDistinct(hist, ns, 0);
  }

  /** The scope's history, its state, and when it replays. */
  lemma ScopeConverges(hist: seq<Event>, src: Identity, ns: Option<string>)
    requires Persistent(src) && Sourced(hist, src)
    ensures var es := InScope(hist, ns, 0);
            Increasing(es) && DistinctIds(es) &&
            (Replay(es, src, ALL_RECONSTRUCTING, EMPTY_DB, 0).Ok? <==> AllPortable(es)) &&
            (AllPortable(es) ==> SameState(Replay(es, src, ALL_RECONSTRUCTING, EMPTY_DB, 0).value, Scoped(Tables(hist, src), ns)))
  {
    ScopeInOrder(hist, src, ns);
    match ns
    case None =>
      EverythingInScope(hist);
      ReplayConverges(hist, src);
    case Some(n) =>
      ScopeIsSourced(hist, src, n);
      ReplayConverges(InScope(hist, ns, 0), src);
  }

  lemma {:induction false} EverythingInScope(hist: seq<Event>)
    requires Increasing(hist)
    ensures InScope(hist, None, 0) == hist
  {
    if hist != [] { EverythingInScope(hist[..|hist| - 1]); }
  }

  /** What a replica that has replayed only with cursors of scope `ns` keeps. */
  ghost predicate InScopeReplica(r: Replica, w: World, ns: Option<string>, t: nat) {
    && Good(w) && Persistent(w.store.identity)
    && Holding(r, w.hist, w.store.identity, ns, t)
    && (r.saved.Some? ==> r.saved.value.owner == w.store.identity && 0 <= r.saved.value.seqNo <= LastSeq(w.hist, 0))
  }

  lemma HoldingIsUnique(r: Replica, w: World, ns: Option<string>, t: nat)
    requires InScopeReplica(r, w, ns, t)
    ensures UniqueRows(r.db.rows)
  {
    ReplayKeepsUnique(InScope(w.hist, ns, 0)[..t], w.store.identity, ALL_RECONSTRUCTING, EMPTY_DB, 0);
  }

  /** Where a replay from `s` of at most `max` events of a scope ends. */
  function StretchEnd(es: seq<Event>, s: int, max: Option<nat>): (hi: nat)
    ensures Reached(es, s) <= hi <= |es|
  {
    var lo := Reached(es, s);
    if max.Some? && max.value < |es| - lo then lo + max.value else |es|
  }

  /** The window of an accepted cursor is a stretch of the scope's history, from the first event
      after the cursor on. */
  lemma WindowIsStretch(l: Log, hist: seq<Event>, src: Identity, c: Cursor, want: Option<string>, max: Option<nat>)
      returns (lo: nat, hi: nat)
    requires Retained(l, hist) && WellFormed(c) && Addressed(src, c, want)
    requires CheckCursor(l, src, c, want).None?
    ensures var es := InScope(hist, c.ns, 0);
            lo == Reached(es, c.seqNo) <= hi == StretchEnd(es, c.seqNo, max) && Window(l.events, c.ns, c.seqNo, max) == es[lo..hi]
  {
    WindowIsComplete(l, hist, src, c, want, c.ns);
    ScopeFrom(hist, c.ns, c.seqNo);
    var es := InScope(hist, c.ns, 0);
    lo := Reached(es, c.seqNo);
    var w := InScope(hist, c.ns, c.seqNo);
    assert w == es[lo..];
    hi := lo + if max.Some? && max.value < |w| then max.value else |w|;
  }

  /** An accepted cursor does not stand past what the replica holds. */
  lemma BaseIsHeld(r: Replica, es: seq<Event>, c: Cursor, t: nat)
    requires Increasing(es) && WellFormed(c) && HasBase(r.saved, c)
    requires r.saved.Some? ==> r.saved.value.seqNo >= 0 && Reached(es, r.saved.value.seqNo) <= t
    ensures Reached(es, c.seqNo) <= t
    ensures forall i :: Reached(es, c.seqNo) <= i < |es| ==> es[i].seqNo > c.seqNo
  {
    ReachedSplits(es, c.seqNo);
    if c.seqNo > 0 { ReachedLater(es, c.seqNo, r.saved.value.seqNo); }
  }

  lemma AcceptedIsAddressed(s: Store, c: Cursor, want: Option<string>)
    requires CheckCursor(s.log, s.identity, c, want).None?
    ensures Addressed(s.identity, c, want)
  {
  }

  lemma AdvanceReaches(es: seq<Event>, lo: nat, hi: nat, c: Cursor)
    requires Increasing(es) && lo <= hi <= |es| && lo == Reached(es, c.seqNo) && c.seqNo >= 0
    ensures Reached(es, Advance(c, es[lo..hi]).seqNo) == hi && Advance(c, es[lo..hi]).seqNo >= 0
  {
    if lo < hi { ReachedAt(es, hi - 1); }
  }

  lemma AdvanceStaysInLog(hist: seq<Event>, c: Cursor, lo: nat, hi: nat, l: Log, src: Identity, want: Option<string>)
    requires Retained(l, hist) && WellFormed(c) && Addressed(src, c, want) && CheckCursor(l, src, c, want).None?
    requires lo <= hi <= |InScope(hist, c.ns, 0)|
    ensures Advance(c, InScope(hist, c.ns, 0)[lo..hi]).seqNo <= LastSeq(hist, 0)
  {
    var es := InScope(hist, c.ns, 0);
    InScopeInOrder(hist, c.ns, 0);
    CursorAcceptedExactly(l, hist, src, c, want);
    UpToLast(hist);
    if lo < hi { assert es[hi - 1] in es; }
  }

  lemma UpToLast(hist: seq<Event>)
    requires Increasing(hist)
    ensures LastSeq(hist, 0) >= 0 && forall i :: 0 <= i < |hist| ==> hist[i].seqNo <= LastSeq(hist, 0)
  {
  }

  lemma HoldingIsOwn(r: Replica, w: World, ns: Option<string>, t: nat)
    requires InScopeReplica(r, w, ns, t)
    ensures UniqueRows(r.db.rows) && Own(r, w.store.identity)
  {
    HoldingIsUnique(r, w, ns, t);
  }

  /** An accepted replay of a replica, from any accepted cursor of its scope and of any length:
      the tables end in those of the first events of the scope's history, up to the end of the
      window or to where the replica already was. */
  lemma ReplayExtends(r: Replica, w: World, c: Cursor, want: Option<string>, max: Option<nat>, t: nat) returns (t': nat)
    requires InScopeReplica(r, w, c.ns, t) && UniqueRows(r.db.rows) && WellFormed(c)
    requires ReplayFrom(w.store, r, c, want, max).Ok?
    ensures var r', es := ReplayFrom(w.store, r, c, want, max).value, InScope(w.hist, c.ns, 0);
            var hi := StretchEnd(es, c.seqNo, max);
            t' == (if hi <= t then t else hi) && InScopeReplica(r', w, c.ns, t') &&
            r'.saved.Some? && Reached(es, r'.saved.value.seqNo) == hi
  {
    var src, es := w.store.identity, InScope(w.hist, c.ns, 0);
    HoldingIsOwn(r, w, c.ns, t);
    OwnIsNotGuarded(w.store, r, c, want, max);
    AcceptedIsAddressed(w.store, c, want);
    var lo, hi := WindowIsStretch(w.store.log, w.hist, src, c, want, max);
    ScopeInOrder(w.hist, src, c.ns);
    BaseIsHeld(r, es, c, t);
    ReplayUnderTypes(es[lo..hi], src, c.types, r.db, c.seqNo);
    PartReplays(es, lo, hi, t, src, ALL_RECONSTRUCTING, r.db, c.seqNo);
    AdvanceReaches(es, lo, hi, c);
    AdvanceStaysInLog(w.hist, c, lo, hi, w.store.log, src, want);
    t' := if hi <= t then t else hi;
  }

  /** Replaying the rest of the scope on what the replica holds equals replaying all of it. */
  lemma RestIsWhole(r: Replica, l: Log, hist: seq<Event>, src: Identity, c: Cursor, want: Option<string>, t: nat)
    requires Retained(l, hist) && Sourced(hist, src) && Persistent(src) && Holding(r, hist, src, c.ns, t)
    requires r.saved.Some? ==> r.saved.value.seqNo >= 0
    requires UniqueRows(r.db.rows) && WellFormed(c) && Addressed(src, c, want)
    requires CheckCursor(l, src, c, want).None? && HasBase(r.saved, c)
    ensures Replay(Window(l.events, c.ns, c.seqNo, None), src, ALL_RECONSTRUCTING, r.db, c.seqNo) ==
            Replay(InScope(hist, c.ns, 0), src, ALL_RECONSTRUCTING, EMPTY_DB, 0)
  {
    WindowIsComplete(l, hist, src, c, want, c.ns);
    ScopeInOrder(hist, src, c.ns);
    ScopeFrom(hist, c.ns, c.seqNo);
    RestOfScope(r, InScope(hist, c.ns, 0), src, c, t);
  }

  lemma RestOfScope(r: Replica, es: seq<Event>, src: Identity, c: Cursor, t: nat)
    requires Persistent(src) && Increasing(es) && DistinctIds(es) && WellFormed(c) && HasBase(r.saved, c)
    requires t <= |es| && Replay(es[..t], src, ALL_RECONSTRUCTING, EMPTY_DB, 0) == Ok(r.db)
    requires r.saved.Some? ==> r.saved.value.seqNo >= 0 && Reached(es, r.saved.value.seqNo) <= t
    ensures UniqueRows(r.db.rows)
    ensures Replay(es[Reached(es, c.seqNo)..], src, ALL_RECONSTRUCTING, r.db, c.seqNo) ==
            Replay(es, src, ALL_RECONSTRUCTING, EMPTY_DB, 0)
  {
    BaseIsHeld(r, es, c, t);
    RestReplays(es, Reached(es, c.seqNo), t, src, r.db, c.seqNo);
  }

  lemma RestReplays(es: seq<Event>, lo: nat, t: nat, src: Identity, at: DB, s: int)
    requires Persistent(src) && Increasing(es) && DistinctIds(es) && lo <= t <= |es|
    requires Replay(es[..t], src, ALL_RECONSTRUCTING, EMPTY_DB, 0) == Ok(at)
    requires s >= 0 && forall i :: lo <= i < |es| ==> es[i].seqNo > s
    ensures UniqueRows(at.rows)
    ensures Replay(es[lo..], src, ALL_RECONSTRUCTING, at, s) == Replay(es, src, ALL_RECONSTRUCTING, EMPTY_DB, 0)
  {
    PartReplays(es, lo, |es|, t, src, ALL_RECONSTRUCTING, at, s);
    assert es[..|es|] == es && es[lo..|es|] == es[lo..];
  }

  /** The state transitions in scope after the cursor are of the types it names. */
  ghost predicate CursorCovers(hist: seq<Event>, c: Cursor) {
    TypesWithin(InScope(hist, c.ns, c.seqNo), c.types)
  }

  /** An accepted unbounded replay of a replica ends as a replay of the whole scope from nothing
      would, if the cursor names all the event types there are. */
  lemma UnboundedIsWhole(r: Replica, w: World, c: Cursor, want: Option<string>, t: nat)
    requires InScopeReplica(r, w, c.ns, t) && UniqueRows(r.db.rows) && WellFormed(c)
    requires CheckCursor(w.store.log, w.store.identity, c, want).None? && HasBase(r.saved, c)
    ensures var whole := Replay(InScope(w.hist, c.ns, 0), w.store.identity, ALL_RECONSTRUCTING, EMPTY_DB, 0);
            var out := ReplayFrom(w.store, r, c, want, None);
            (out.Ok? <==> whole.Ok? && CursorCovers(w.hist, c)) && (out.Ok? ==> out.value.db == whole.value)
  {
    var src := w.store.identity;
    HoldingIsOwn(r, w, c.ns, t);
    OwnIsNotGuarded(w.store, r, c, want, None);
    AcceptedIsAddressed(w.store, c, want);
    WindowIsComplete(w.store.log, w.hist, src, c, want, c.ns);
    ReplayUnderTypes(InScope(w.hist, c.ns, c.seqNo), src, c.types, r.db, c.seqNo);
    RestIsWhole(r, w.store.log, w.hist, src, c, want, t);
  }

  /** An accepted unbounded replay succeeds exactly if everything logged in its scope was portable
      and the cursor names the event types it meets, and then the replica is in the source's
      state: the same rows up to columns outside the fingerprint, and every tombstone, compacted on
      the source or not. */
  lemma ReplayReachesHead(r: Replica, w: World, c: Cursor, want: Option<string>, t: nat)
    requires InScopeReplica(r, w, c.ns, t) && UniqueRows(r.db.rows) && WellFormed(c)
    requires CheckCursor(w.store.log, w.store.identity, c, want).None? && HasBase(r.saved, c)
    ensures var out := ReplayFrom(w.store, r, c, want, None);
            (out.Ok? <==> AllPortable(InScope(w.hist, c.ns, 0)) && CursorCovers(w.hist, c)) &&
            (out.Ok? ==> SameState(out.value.db, Scoped(Tables(w.hist, w.store.identity), c.ns)))
  {
    UnboundedIsWhole(r, w, c, want, t);
    ScopeConverges(w.hist, w.store.identity, c.ns);
  }
}
