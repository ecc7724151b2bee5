/** Pass 1's working state: the simulated target, loaded page by page from the ids and pairs of
    the events at hand, and changed in place by every planned event. */
module LazyView {
  import opened Records
  import opened Planner
  import opened Execution
  import opened Database

  /** The id and the pairs an event makes the loader fetch. */
  function WantedId(e: Event): Id {
    if e.id != "" then e.id else e.memoryId
  }

  function WantedNs(e: Event): string {
    if e.rec.ns != "" then e.rec.ns else e.ns
  }

  function WantedPairs(e: Event): set<Pair> {
    (if e.rec.chash != "" then {(WantedNs(e), e.rec.chash)} else {}) +
    (if e.prevHash != "" then {(WantedNs(e), e.prevHash)} else {})
  }

  /** What has been fetched so far: live rows and pairs, tombstones, watermarks. */
  datatype Loaded = Loaded(ids: set<Id>, pairs: set<Pair>, tombIds: set<Id>, markIds: set<Id>)

  ghost predicate Covers(d: Loaded, e: Event) {
    WantedId(e) in d.ids && WantedPairs(e) <= d.pairs && WantedId(e) in d.tombIds && WantedId(e) in d.markIds
  }

  /** `part` agrees with `whole` and has all of it on the keys `on`. */
  ghost predicate Portion<K, V>(part: map<K, V>, whole: map<K, V>, on: set<K>) {
    && (forall k <- part :: k in whole && part[k] == whole[k])
    && (forall k <- on :: k in whole ==> k in part)
  }

  /** The lazy view `l` sees the eager view `v`: everything it holds is right, and what has been
      loaded is complete. Ids that the run has touched are loaded, and whatever it has not
      touched is still as in the database, which pass 1 does not change. */
  ghost predicate Sees(l: View, d: Loaded, v: View, db: DB) {
    && l.prev == v.prev && l.mutated == v.mutated && l.created == v.created
    && Portion(l.live, v.live, d.ids) && Portion(l.owner, v.owner, d.pairs)
    && Portion(l.tombs, v.tombs, d.tombIds) && Portion(l.marks, v.marks, d.markIds)
    && OwnerExact(v.live, v.owner)
    && v.mutated <= d.ids && v.mutated <= d.tombIds
    && (forall m <- v.mutated :: m in v.live ==> PairOf(v.live[m]) in d.pairs)
    && (forall m :: m !in v.mutated ==> Get(v.live, m) == Get(LiveRows(db.rows), m) && Get(v.tombs, m) == Get(Graves(db.tombs), m))
    && v.marks == db.marks
  }

  /** A view with nothing loaded sees the eager view of the database. */
  lemma NothingLoaded(db: DB, prev: int)
    requires UniqueRows(db.rows)
    ensures Sees(View(prev, map[], map[], map[], map[], {}, {}), Loaded({}, {}, {}, {}), EagerView(db, prev), db)
  {
    EagerViewIsCoherent(db, prev);
  }

  /** For a covered event that passes the checks, both views give the planner the same answer. */
  lemma SameAnswer(l: View, d: Loaded, v: View, db: DB, e: Event, src: Identity, scope: set<EventType>)
    requires Sees(l, d, v, db) && Covers(d, e)
    ensures Disposed(e, src, scope, l) == Disposed(e, src, scope, v)
  {
    if CheckEvent(e, v.prev, src, scope).None? && Reconstructing(e.etype) {
      assert e.id != "" && e.rec.ns == e.ns && e.rec.chash != "";
      assert (e.rec.ns, e.rec.chash) in d.pairs;
      assert LocalOf(l, e) == LocalOf(v, e);
    }
  }

  lemma PortionPut<K, V>(part: map<K, V>, whole: map<K, V>, on: set<K>, k: K, x: V)
    requires Portion(part, whole, on)
    ensures Portion(part[k := x], whole[k := x], on)
  {
  }

  lemma PortionDrop<K, V>(part: map<K, V>, whole: map<K, V>, on: set<K>, k: K)
    requires Portion(part, whole, on)
    ensures Portion(part - {k}, whole - {k}, on)
  {
  }

  lemma IndexFollows(lower: map<Pair, Id>, upper: map<Pair, Id>, pairs: set<Pair>, e: Event, before: string)
    requires Portion(lower, upper, pairs)
    ensures Portion(Reindex(lower, e, before), Reindex(upper, e, before), pairs)
    ensures Portion(lower - {(e.rec.ns, before)}, upper - {(e.rec.ns, before)}, pairs)
    ensures Portion(lower[(e.rec.ns, e.rec.chash) := e.id], upper[(e.rec.ns, e.rec.chash) := e.id], pairs)
  {
    PortionDrop(lower, upper, pairs, (e.rec.ns, before));
    PortionPut(lower, upper, pairs, (e.rec.ns, e.rec.chash), e.id);
    PortionPut(lower - {(e.rec.ns, before)}, upper - {(e.rec.ns, before)}, pairs, (e.rec.ns, e.rec.chash), e.id);
  }

  lemma RowsFollow(lower: map<Id, Live>, upper: map<Id, Live>, ids: set<Id>, e: Event)
    requires Portion(lower, upper, ids)
    ensures Portion(lower[e.id := LiveOf(e.rec)], upper[e.id := LiveOf(e.rec)], ids)
    ensures Portion(lower - {e.id}, upper - {e.id}, ids)
    ensures e.id in ids ==> HashOf(lower, e.id) == HashOf(upper, e.id)
  {
    PortionPut(lower, upper, ids, e.id, LiveOf(e.rec));
    PortionDrop(lower, upper, ids, e.id);
  }

  lemma IndexPortionFollows(l: View, d: Loaded, v: View, e: Event, src: Identity, b: Disposition)
    requires Portion(l.live, v.live, d.ids) && Portion(l.owner, v.owner, d.pairs) && e.id in d.ids && IsApply(b)
    ensures Portion(Effect(l, e, b, src).owner, Effect(v, e, b, src).owner, d.pairs)
  {
    RowsFollow(l.live, v.live, d.ids, e);
    IndexFollows(l.owner, v.owner, d.pairs, e, HashOf(v.live, e.id));
  }

  lemma PortionsFollow(l: View, d: Loaded, v: View, e: Event, src: Identity, b: Disposition)
    requires Portion(l.live, v.live, d.ids) && Portion(l.owner, v.owner, d.pairs)
    requires Portion(l.tombs, v.tombs, d.tombIds) && Portion(l.marks, v.marks, d.markIds)
    requires e.id in d.ids && IsApply(b)
    ensures var l', v' := Effect(l, e, b, src), Effect(v, e, b, src);
            Portion(l'.live, v'.live, d.ids) && Portion(l'.owner, v'.owner, d.pairs) &&
            Portion(l'.tombs, v'.tombs, d.tombIds) && Portion(l'.marks, v'.marks, d.markIds)
  {
    RowsFollow(l.live, v.live, d.ids, e);
    IndexPortionFollows(l, d, v, e, src, b);
    PortionPut(l.tombs, v.tombs, d.tombIds, e.id, Grave(e.seqNo, e.eventId, src.history));
  }

  /** A planned event keeps the views together. */
  lemma SeesEffect(l: View, d: Loaded, v: View, db: DB, e: Event, src: Identity, b: Disposition)
    requires Sees(l, d, v, db) && Covers(d, e) && Admitted(v, e, src, b) && IsApply(b)
    requires e.ns == e.rec.ns
    ensures Sees(Effect(l, e, b, src), d, Effect(v, e, b, src), db)
  {
    assert e.id != "" && (e.rec.ns, e.rec.chash) in d.pairs;
    PortionsFollow(l, d, v, e, src, b);
    EffectKeepsIndex(v, e, src, b);
    TouchedIsLoaded(l, d, v, db, e, src, b);
  }

  lemma TouchedIsLoaded(l: View, d: Loaded, v: View, db: DB, e: Event, src: Identity, b: Disposition)
    requires Sees(l, d, v, db) && e.id in d.ids && e.id in d.tombIds && (e.rec.ns, e.rec.chash) in d.pairs && IsApply(b)
    ensures var v' := Effect(v, e, b, src);
            v'.mutated <= d.ids && v'.mutated <= d.tombIds && (forall m <- v'.mutated :: m in v'.live ==> PairOf(v'.live[m]) in d.pairs) &&
            (forall m :: m !in v'.mutated ==> Get(v'.live, m) == Get(LiveRows(db.rows), m) && Get(v'.tombs, m) == Get(Graves(db.tombs), m))
  {
  }

  lemma EffectKeepsIndex(v: View, e: Event, src: Identity, b: Disposition)
    requires OwnerExact(v.live, v.owner) && Admitted(v, e, src, b) && IsApply(b)
    ensures OwnerExact(Effect(v, e, b, src).live, Effect(v, e, b, src).owner)
  {
    match b
    case ApplyCreate =>
      assert (e.rec.ns, e.rec.chash) !in v.owner;
      CreateKeepsIndex(v.live, v.owner, e.id, LiveOf(e.rec));
    case ApplyUpdate => UpdateKeepsIndex(v.live, v.owner, e);
    case ApplyDelete => DeleteKeepsIndex(v.live, v.owner, e.id);
  }

  /** The view with a fetched row. */
  function WithRow(l: View, m: Id, r: Rec): View {
    if m in l.mutated || m in l.live then l
    else l.(live := l.live[m := LiveOf(r)], owner := if r.chash != "" then l.owner[(r.ns, r.chash) := m] else l.owner)
  }

  /** The view with the fetched holder of a pair. */
  function WithHolder(l: View, m: Id, r: Rec): View {
    l.(owner := if (r.ns, r.chash) in l.owner then l.owner else l.owner[(r.ns, r.chash) := m],
       live := if m in l.live then l.live else l.live[m := LiveOf(r)])
  }

  /** Taking over a holder leaves only the others to be taken over. */
  lemma HolderIsPlaced(l: View, v: View, db: DB, m: Id, wanted: set<Pair>, left: set<Id>)
    requires m in db.rows && m !in v.mutated && OwnerExact(v.live, v.owner)
    requires Get(v.live, m) == Get(LiveRows(db.rows), m)
    requires forall p :: p in wanted && p in v.owner ==> p in l.owner || v.owner[p] in left
    ensures var l' := WithHolder(l, m, db.rows[m]);
            forall p :: p in wanted && p in v.owner ==> p in l'.owner || v.owner[p] in left - {m}
  {
    assert m in LiveRows(db.rows) && m in v.live && v.live[m] == LiveOf(db.rows[m]);
    forall p | p in wanted && p in v.owner && v.owner[p] == m ensures p == (db.rows[m].ns, db.rows[m].chash) {
      assert PairOf(v.live[m]) == p;
    }
  }

  class PlanState {
    var live: map<Id, Live>
    var owner: map<Pair, Id>
    var tombs: map<Id, Grave>
    var marks: map<Id, Mark>
    var mutated: set<Id>
    var created: set<Id>
    var loadedIds: set<Id>
    var loadedPairs: set<Pair>
    var loadedTombs: set<Id>
    var loadedMarks: set<Id>

    ghost function View(prev: int): View
      reads this
    {
      Planner.View(prev, live, owner, tombs, marks, mutated, created)
    }

    ghost function Fetched(): Loaded
      reads this
    {
      Loaded(loadedIds, loadedPairs, loadedTombs, loadedMarks)
    }

    constructor ()
      ensures forall prev :: View(prev) == Planner.View(prev, map[], map[], map[], map[], {}, {})
      ensures Fetched() == Loaded({}, {}, {}, {})
    {
      live, owner, tombs, marks := map[], map[], map[], map[];
      mutated, created := {}, {};
      loadedIds, loadedPairs, loadedTombs, loadedMarks := {}, {}, {}, {};
    }

    /** A fetched row, unless the run has touched its id or knows it already. */
    method TakeRow(m: Id, row: Rec)
      modifies this`live, this`owner
      ensures forall prev :: View(prev) == WithRow(old(View(prev)), m, row)
    {
      if m !in mutated && m !in live {
        live := live[m := LiveOf(row)];
        if row.chash != "" { owner := owner[(row.ns, row.chash) := m]; }
      }
    }

    /** A fetched holder of a pair that the run has not touched. */
    method TakeHolder(m: Id, row: Rec)
      modifies this`live, this`owner
      ensures forall prev :: View(prev) == WithHolder(old(View(prev)), m, row)
    {
      if (row.ns, row.chash) !in owner { owner := owner[(row.ns, row.chash) := m]; }
      if m !in live { live := live[m := LiveOf(row)]; }
    }

    /** Of the wanted rows, all but those `left` have been taken over. */
    ghost predicate SeesUpTo(v: Planner.View, wanted: set<Id>, left: set<Id>, db: DB)
      reads this
    {
      Sees(View(v.prev), Loaded(loadedIds + (wanted - left), loadedPairs, loadedTombs, loadedMarks), v, db)
    }

    /** Take over one of the fetched rows. */
    method TakeFetched(target: MemoryDB, m: Id, row: Rec, wanted: set<Id>, left: set<Id>, ghost v: Planner.View)
      requires target.Valid() && SeesUpTo(v, wanted, left, target.Data())
      requires m in left && m in wanted && m in target.rows && row == target.rows[m]
      modifies this`live, this`owner
      ensures SeesUpTo(v, wanted, left - {m}, target.Data())
    {
      ghost var ids := loadedIds + (wanted - left);
      SeesRow(View(v.prev), Loaded(ids, loadedPairs, loadedTombs, loadedMarks), v, target.Data(), m);
      TakeRow(m, row);
      assert loadedIds + (wanted - (left - {m})) == ids + {m};
    }

    /** Fetch the rows of ids not asked for before; ids the run has touched keep their simulated
        state. */
    method LoadRows(target: MemoryDB, ids: set<Id>, ghost v: Planner.View)
      requires target.Valid() && Sees(View(v.prev), Fetched(), v, target.Data())
      modifies this`live, this`owner, this`loadedIds
      ensures Sees(View(v.prev), Fetched(), v, target.Data())
      ensures Fetched() == old(Fetched()).(ids := old(loadedIds) + ids)
    {
      var wanted := ids - loadedIds;
      var found := target.GetMemories(wanted);
      var left := found.Keys;
      NoRowNoLive(View(v.prev), Fetched(), v, target.Data(), wanted - left);
      while left != {}
        invariant left <= found.Keys && loadedIds == old(loadedIds)
        invariant SeesUpTo(v, wanted, left, target.Data())
      {
        var m :| m in left;
        TakeFetched(target, m, found[m], wanted, left, v);
        left := left - {m};
      }
      assert loadedIds + (wanted - left) == loadedIds + wanted == old(loadedIds) + ids;
      loadedIds := loadedIds + wanted;
    }

    /** Every holder of a wanted pair is in the index or still to be taken over. */
    ghost predicate Pending(v: Planner.View, wanted: set<Pair>, left: set<Id>)
      reads this
    {
      forall p :: p in wanted && p in v.owner ==> p in owner || v.owner[p] in left
    }

    /** Take over one of the fetched holders, unless the run has touched it. */
    method TakeFetchedHolder(target: MemoryDB, m: Id, row: Rec, wanted: set<Pair>, left: set<Id>, ghost v: Planner.View)
      requires target.Valid() && Sees(View(v.prev), Fetched(), v, target.Data()) && wanted !! loadedPairs
      requires m in Sharing(target.rows, wanted) && row == target.rows[m] && Pending(v, wanted, left)
      modifies this`live, this`owner
      ensures Sees(View(v.prev), Fetched(), v, target.Data()) && Pending(v, wanted, left - {m})
    {
      if m in mutated {
        TouchedHoldsNone(View(v.prev), Fetched(), v, m, wanted);
      } else {
        ghost var before := View(v.prev);
        SeesHolder(before, Fetched(), v, target.Data(), m);
        HolderIsPlaced(before, v, target.Data(), m, wanted, left);
        TakeHolder(m, row);
      }
    }

    /** Fetch the rows that hold pairs not asked for before. */
    method LoadPairs(target: MemoryDB, pairs: set<Pair>, ghost v: Planner.View)
      requires target.Valid() && Sees(View(v.prev), Fetched(), v, target.Data())
      modifies this`live, this`owner, this`loadedPairs
      ensures Sees(View(v.prev), Fetched(), v, target.Data())
      ensures Fetched() == old(Fetched()).(pairs := old(loadedPairs) + pairs)
    {
      var wanted := pairs - loadedPairs;
      var found := target.GetMemoriesByIdentity(wanted);
      var left := found.Keys;
      forall p | p in wanted && p in v.owner ensures v.owner[p] in left {
        HolderIsFetched(View(v.prev), Fetched(), v, target.Data(), p);
      }
      while left != {}
        invariant left <= found.Keys && loadedPairs == old(loadedPairs)
        invariant Sees(View(v.prev), Fetched(), v, target.Data()) && Pending(v, wanted, left)
      {
        var m :| m in left;
        TakeFetchedHolder(target, m, found[m], wanted, left, v);
        left := left - {m};
      }
      PairsComplete(View(v.prev), Fetched(), v, target.Data(), wanted);
      assert loadedPairs + wanted == loadedPairs + pairs;
      loadedPairs := loadedPairs + wanted;
    }

    /** Fetch the tombstones and watermarks of ids not asked for before. */
    method LoadGraves(target: MemoryDB, ids: set<Id>, ghost v: Planner.View)
      requires target.Valid() && Sees(View(v.prev), Fetched(), v, target.Data())
      modifies this`tombs, this`marks, this`loadedTombs, this`loadedMarks
      ensures Sees(View(v.prev), Fetched(), v, target.Data())
      ensures Fetched() == old(Fetched()).(tombIds := old(loadedTombs) + ids, markIds := old(loadedMarks) + ids)
    {
      var wantedTombs, wantedMarks := ids - loadedTombs, ids - loadedMarks;
      var foundTombs := Graves(Pick(target.tombs, wantedTombs));
      var foundMarks := Pick(target.marks, wantedMarks);
      forall m | m in foundTombs ensures m in v.tombs && v.tombs[m] == foundTombs[m] {
        assert m !in v.mutated && Get(v.tombs, m) == Get(Graves(target.Data().tombs), m);
      }
      forall m | m in wantedTombs && m in v.tombs ensures m in foundTombs {
        assert m !in v.mutated && Get(v.tombs, m) == Get(Graves(target.Data().tombs), m);
      }
      tombs, marks := tombs + foundTombs, marks + foundMarks;
      loadedTombs, loadedMarks := loadedTombs + wantedTombs, loadedMarks + wantedMarks;
      assert loadedTombs == old(loadedTombs) + ids && loadedMarks == old(loadedMarks) + ids;
    }

    /** _load_target_replay_candidates: whatever the page's events may consult. */
    method Load(target: MemoryDB, page: seq<Event>, ghost v: Planner.View)
      requires target.Valid() && Sees(View(v.prev), Fetched(), v, target.Data())
      modifies this
      ensures Sees(View(v.prev), Fetched(), v, target.Data())
      ensures forall e <- page :: Covers(Fetched(), e)
    {
      var ids: set<Id>, pairs: set<Pair> := {}, {};
      for i := 0 to |page|
        invariant forall j :: 0 <= j < i ==> WantedId(page[j]) in ids && WantedPairs(page[j]) <= pairs
      {
        ids, pairs := ids + {WantedId(page[i])}, pairs + WantedPairs(page[i]);
      }
      LoadRows(target, ids, v);
      LoadPairs(target, pairs, v);
      LoadGraves(target, ids, v);
    }

    /** The watermark proves that the untouched live row is already past the event. */
    predicate PastEvent(e: Event, src: Identity)
      requires e.id in live
      reads this
    {
      e.id in marks && e.id !in mutated && marks[e.id].lastSeq >= e.seqNo &&
      SameHistory(marks[e.id].history, src) && live[e.id].fp == marks[e.id].fp
    }

    method StepCreated(e: Event, src: Identity) returns (r: Result<Disposition, Reason>)
      requires e.etype.Created?
      modifies this`live, this`owner, this`mutated, this`created
      ensures forall prev :: r == DecideCreate(e, src, LocalOf(old(View(prev)), e))
      ensures forall prev :: View(e.seqNo) == if r.Ok? then Effect(old(View(prev)), e, r.value, src) else old(View(e.seqNo))
    {
      if e.id in tombs {
        var tomb := tombs[e.id];
        if e.seqNo <= tomb.seqNo && SameHistory(tomb.history, src) && e.id !in created { return Ok(SkipIdempotent); }
        return Err(Resurrection);
      }
      if e.id in live {
        var row := live[e.id];
        if row.ns != e.rec.ns { return Err(IdentityMismatch); }
        if row.fp == e.rec.fp && row.chash == e.rec.chash { return Ok(SkipIdempotent); }
        if PastEvent(e, src) { return Ok(SkipIdempotent); }
        return Err(IdentityMismatch);
      }
      var pair := (e.rec.ns, e.rec.chash);
      if pair in owner && owner[pair] != e.id { return Err(IdentityMismatch); }
      live := live[e.id := LiveOf(e.rec)];
      owner := owner[pair := e.id];
      mutated := mutated + {e.id};
      created := created + {e.id};
      r := Ok(ApplyCreate);
    }

    method StepUpdated(e: Event, src: Identity) returns (r: Result<Disposition, Reason>)
      requires e.etype.Updated?
      modifies this`live, this`owner, this`mutated
      ensures forall prev :: r == DecideUpdate(e, src, LocalOf(old(View(prev)), e))
      ensures forall prev :: View(e.seqNo) == if r.Ok? then Effect(old(View(prev)), e, r.value, src) else old(View(e.seqNo))
    {
      if e.id in tombs {
        var tomb := tombs[e.id];
        if e.seqNo <= tomb.seqNo && SameHistory(tomb.history, src) && e.id !in mutated { return Ok(SkipIdempotent); }
        return Err(TombstonedMutation);
      }
      if e.id !in live {
        if e.id in marks && marks[e.id].fp == "" && SameHistory(marks[e.id].history, src) { return Ok(SkipDeduped); }
        return Err(MissingTarget);
      }
      var row := live[e.id];
      if row.ns != e.rec.ns { return Err(IdentityMismatch); }
      if e.prevHash == "" || e.prevFp == "" { return Err(MalformedPayload); }
      if row.fp == e.rec.fp && row.chash == e.rec.chash &&
         (e.prevHash != e.rec.chash || row.chash == e.prevHash) && (e.prevFp != e.rec.fp || row.fp == e.prevFp) {
        return Ok(SkipIdempotent);
      }
      if PastEvent(e, src) { return Ok(SkipIdempotent); }
      if row.chash != e.prevHash || row.fp != e.prevFp { return Err(BaseStateMismatch); }
      var pair := (e.rec.ns, e.rec.chash);
      if pair in owner && owner[pair] != e.id { return Err(HashConflict); }
      if row.chash != e.rec.chash { owner := owner - {(e.rec.ns, row.chash)}; }
      live := live[e.id := LiveOf(e.rec)];
      owner := owner[pair := e.id];
      mutated := mutated + {e.id};
      r := Ok(ApplyUpdate);
    }

    method StepDeleted(e: Event, src: Identity) returns (r: Result<Disposition, Reason>)
      requires e.etype.Deleted?
      modifies this`live, this`owner, this`tombs, this`mutated
      ensures forall prev :: r == DecideDelete(e, src, LocalOf(old(View(prev)), e))
      ensures forall prev :: View(e.seqNo) == if r.Ok? then Effect(old(View(prev)), e, r.value, src) else old(View(e.seqNo))
    {
      if e.id in tombs {
        var tomb := tombs[e.id];
        if e.id !in live && e.id !in mutated &&
           ((e.eventId != "" && tomb.eventId == e.eventId) || (e.seqNo <= tomb.seqNo && SameHistory(tomb.history, src))) {
          return Ok(SkipIdempotent);
        }
        return Err(AlreadyTombstoned);
      }
      if e.id !in live {
        if e.id in marks && marks[e.id].fp == "" && SameHistory(marks[e.id].history, src) { return Ok(SkipDeduped); }
        return Err(MissingTarget);
      }
      var row := live[e.id];
      if row.ns != e.rec.ns { return Err(IdentityMismatch); }
      if row.identifier != e.rec.identifier { return Err(IdentityMismatch); }
      if row.chash != e.rec.chash || row.fp != e.declaredFp { return Err(BaseStateMismatch); }
      owner := owner - {(e.rec.ns, row.chash)};
      live := live - {e.id};
      tombs := tombs[e.id := Grave(e.seqNo, e.eventId, src.history)];
      mutated := mutated + {e.id};
      r := Ok(ApplyDelete);
    }

    /** _validate_and_plan_event_step: decide one event and advance the simulation in place. */
    method Step(e: Event, prev: int, src: Identity, scope: set<EventType>) returns (r: Result<Disposition, Reason>)
      modifies this`live, this`owner, this`tombs, this`mutated, this`created
      ensures r == Disposed(e, src, scope, old(View(prev)))
      ensures r.Ok? ==> View(e.seqNo) == Effect(old(View(prev)), e, r.value, src)
    {
      var bad := CheckEvent(e, prev, src, scope);
      if bad.Some? { return Err(bad.value); }
      match e.etype
      case Observational => r := Ok(Observed);
      case Created => r := StepCreated(e, src);
      case Updated => r := StepUpdated(e, src);
      case Deleted => r := StepDeleted(e, src);
      case Unknown => assert false;
    }
  }

  /** Ids without a row are trivially complete. */
  lemma NoRowNoLive(l: View, d: Loaded, v: View, db: DB, none: set<Id>)
    requires Sees(l, d, v, db) && none !! d.ids && none !! db.rows.Keys
    ensures Sees(l, d.(ids := d.ids + none), v, db)
  {
    forall m | m in none ensures m !in v.live {
      assert Get(v.live, m) == Get(LiveRows(db.rows), m);
    }
  }

  /** Taking over the row of an id, unless it is touched or known already. */
  lemma SeesRow(l: View, d: Loaded, v: View, db: DB, m: Id)
    requires Sees(l, d, v, db) && m in db.rows
    ensures var r := db.rows[m];
            Sees(WithRow(l, m, r), d.(ids := d.ids + {m}), v, db)
  {
    var r := db.rows[m];
    if m !in l.mutated {
      assert Get(v.live, m) == Get(LiveRows(db.rows), m);
      RowTaken(l, d, v, m, r);
    }
  }

  lemma PortionGrows<K, V>(part: map<K, V>, whole: map<K, V>, on: set<K>, k: K)
    requires Portion(part, whole, on) && k in whole
    ensures Portion(part[k := whole[k]], whole, on + {k})
    ensures k in part ==> Portion(part, whole, on + {k})
  {
  }

  lemma RowTaken(l: View, d: Loaded, v: View, m: Id, r: Rec)
    requires Portion(l.live, v.live, d.ids) && Portion(l.owner, v.owner, d.pairs) && OwnerExact(v.live, v.owner)
    requires m in v.live && v.live[m] == LiveOf(r) && m !in l.mutated
    ensures Portion(WithRow(l, m, r).live, v.live, d.ids + {m}) && Portion(WithRow(l, m, r).owner, v.owner, d.pairs)
  {
    PortionGrows(l.live, v.live, d.ids, m);
    if r.chash != "" {
      assert v.owner[PairOf(v.live[m])] == m;
      PortionPut(l.owner, v.owner, d.pairs, (r.ns, r.chash), m);
      assert v.owner[(r.ns, r.chash) := m] == v.owner;
    }
  }

  /** Taking over the untouched holder of a pair. */
  lemma SeesHolder(l: View, d: Loaded, v: View, db: DB, m: Id)
    requires Sees(l, d, v, db) && m in db.rows && m !in v.mutated && db.rows[m].chash != ""
    ensures var p := (db.rows[m].ns, db.rows[m].chash);
            p in v.owner && v.owner[p] == m && m in v.live && v.live[m] == LiveOf(db.rows[m]) &&
            Sees(WithHolder(l, m, db.rows[m]), d, v, db)
  {
    assert Get(v.live, m) == Get(LiveRows(db.rows), m);
    assert v.owner[PairOf(v.live[m])] == m;
  }

  /** A touched id holds no pair that was never asked for. */
  lemma TouchedHoldsNone(l: View, d: Loaded, v: View, m: Id, pairs: set<Pair>)
    requires m in v.mutated && OwnerExact(v.live, v.owner) && pairs !! d.pairs
    requires forall m <- v.mutated :: m in v.live ==> PairOf(v.live[m]) in d.pairs
    ensures forall p :: p in pairs && p in v.owner ==> v.owner[p] != m
  {
    forall p | p in pairs && p in v.owner ensures v.owner[p] != m {
      assert PairOf(v.live[v.owner[p]]) == p;
    }
  }

  lemma PairsComplete(l: View, d: Loaded, v: View, db: DB, more: set<Pair>)
    requires Sees(l, d, v, db)
    requires forall p :: p in more && p in v.owner ==> p in l.owner
    ensures Sees(l, d.(pairs := d.pairs + more), v, db)
  {
  }

  /** Who holds a pair that was never asked for is untouched, so the database has it. */
  lemma HolderIsFetched(l: View, d: Loaded, v: View, db: DB, p: Pair)
    requires Sees(l, d, v, db) && p !in d.pairs && p in v.owner
    ensures var m := v.owner[p]; m in db.rows && db.rows[m].chash != "" && (db.rows[m].ns, db.rows[m].chash) == p
  {
    var m := v.owner[p];
    assert PairOf(v.live[m]) == p;
    assert m !in v.mutated;
    assert Get(v.live, m) == Get(LiveRows(db.rows), m);
  }
}
