/** Replaying one namespace commutes with replaying everything. */
module Scoping {
  import opened Records
  import opened Planner
  import opened Execution
  import opened Idempotence
  import opened Composition

  /** The events a namespace-scoped query returns. */
  function InNamespace(es: seq<Event>, ns: string): seq<Event> {
    if es == [] then []
    else
      var n := |es| - 1;
      if es[n].ns == ns then InNamespace(es[..n], ns) + [es[n]] else InNamespace(es[..n], ns)
  }

  /** What a run and its tables say about one id. */
  datatype Cell = Cell(row: Option<Rec>, tomb: Option<Tomb>, mark: Option<Mark>, mutated: bool, created: bool)

  function CellOf(v: View, db: DB, m: Id): Cell {
    Cell(Get(db.rows, m), Get(db.tombs, m), Get(db.marks, m), m in v.mutated, m in v.created)
  }

  /** The cell of an event's id after its disposition. */
  function CellAfter(c: Cell, e: Event, d: Disposition, src: Identity): Cell {
    match d
    case ApplyCreate => Cell(Some(e.rec), c.tomb, Some(MarkOf(e, src)), true, true)
    case ApplyUpdate => Cell(Some(e.rec), c.tomb, Some(MarkOf(e, src)), true, c.created)
    case ApplyDelete => Cell(None, Some(TombOf(e, if c.row.Some? then c.row.value.content else "")), None, true, c.created)
    case SkipDeduped => c.(mark := Some(MarkOf(e, src).(fp := "")))
    case SkipIdempotent => c
    case Observed => c
  }

  lemma CellStep(v: View, db: DB, m: Id, e: Event, d: Disposition, src: Identity)
    requires Lands(db, e, d)
    ensures CellOf(Effect(v, e, d, src), ApplyOne(db, e, d, src), m) ==
            if m == e.id then CellAfter(CellOf(v, db, m), e, d, src) else CellOf(v, db, m)
  {
  }

  /** The same but for the dedupe marker of an id that is neither live nor tombstoned. */
  predicate Alike(a: Cell, b: Cell) {
    a.(mark := b.mark) == b && (a.row.Some? || a.tomb.Some? ==> a.mark == b.mark)
  }

  /** One id in a full run (`c`), in the run over namespace `ns` (`cn`), and before both
      (`c0`). `home` is the namespace in which the full run has touched the id, if it has. */
  ghost predicate At(c: Cell, cn: Cell, c0: Cell, home: Option<string>, ns: string, prev: int) {
    match home
    case None => Alike(c, c0) && Alike(cn, c0) && !c.mutated && !c.created
    case Some(at) =>
      && c.mutated && (if at == ns then cn == c else Alike(cn, c0))
      && (c.row.Some? || c.tomb.Some?)
      && (c.row.Some? ==> c.row.value.ns == at)
      && (c.tomb.Some? ==> c.tomb.value.ns == at && c.tomb.value.seqNo <= prev)
      && (c0.row.Some? ==> c0.row.value.ns == at)
      && c0.tomb.None? && !c0.mutated && !c0.created
  }

  /** One id in two runs and before them. */
  ghost predicate CellAt(v: View, f: View, db: DB, dbn: DB, v0: View, db0: DB, home: map<Id, string>, ns: string, m: Id) {
    At(CellOf(v, db, m), CellOf(f, dbn, m), CellOf(v0, db0, m), Get(home, m), ns, v.prev)
  }

  /** A full run and the run over the events of `ns`, both started on `db0` as `v0`. */
  ghost predicate Split(v: View, f: View, db: DB, dbn: DB, v0: View, db0: DB, home: map<Id, string>, ns: string) {
    && Coherent(v, db) && Coherent(f, dbn)
    && v.marks == f.marks == db0.marks && f.prev <= v.prev
    && forall m :: CellAt(v, f, db, dbn, v0, db0, home, ns, m)
  }

  lemma SameCell(v: View, f: View, db: DB, dbn: DB, v0: View, db0: DB, home: map<Id, string>, ns: string, m: Id)
    requires Split(v, f, db, dbn, v0, db0, home, ns)
    requires (m in db.rows && db.rows[m].ns == ns) || (m in dbn.rows && dbn.rows[m].ns == ns) || (m in home ==> home[m] == ns)
    ensures Alike(CellOf(f, dbn, m), CellOf(v, db, m))
  {
    assert CellAt(v, f, db, dbn, v0, db0, home, ns, m);
  }

  lemma SameOwners(v: View, f: View, db: DB, dbn: DB, v0: View, db0: DB, home: map<Id, string>, ns: string, hash: string)
    requires Split(v, f, db, dbn, v0, db0, home, ns)
    ensures Get(v.owner, (ns, hash)) == Get(f.owner, (ns, hash))
  {
    var p := (ns, hash);
    if p in v.owner {
      SameCell(v, f, db, dbn, v0, db0, home, ns, v.owner[p]);
      assert Get(dbn.rows, v.owner[p]) == Get(db.rows, v.owner[p]);
      assert f.live[v.owner[p]] == v.live[v.owner[p]];
    }
    if p in f.owner {
      SameCell(v, f, db, dbn, v0, db0, home, ns, f.owner[p]);
      assert Get(dbn.rows, f.owner[p]) == Get(db.rows, f.owner[p]);
      assert f.live[f.owner[p]] == v.live[f.owner[p]];
    }
  }

  lemma SameLocals(v: View, f: View, db: DB, dbn: DB, v0: View, db0: DB, home: map<Id, string>, ns: string, e: Event)
    requires Split(v, f, db, dbn, v0, db0, home, ns) && e.rec.ns == ns
    requires e.id in home ==> home[e.id] == ns
    ensures LocalOf(f, e) == LocalOf(v, e)
  {
    SameOwners(v, f, db, dbn, v0, db0, home, ns, e.rec.chash);
    SameCell(v, f, db, dbn, v0, db0, home, ns, e.id);
    assert Alike(CellOf(f, dbn, e.id), CellOf(v, db, e.id));
    LocalFromCell(v, db, e);
    LocalFromCell(f, dbn, e);
  }

  function MapOpt<A, B>(o: Option<A>, g: A -> B): Option<B> {
    match o case None => None case Some(a) => Some(g(a))
  }

  lemma LocalFromCell(v: View, db: DB, e: Event)
    requires Coherent(v, db)
    ensures var c := CellOf(v, db, e.id);
            LocalOf(v, e) == Local(MapOpt(c.row, LiveOf), MapOpt(c.tomb, GraveOf), Get(v.marks, e.id),
                                   Get(v.owner, (e.rec.ns, e.rec.chash)), c.mutated, c.created)
  {
  }

  /** An accepted event never names an id that the run has touched in another namespace. */
  lemma TouchedStaysHome(v: View, f: View, db: DB, dbn: DB, v0: View, db0: DB, home: map<Id, string>, ns: string,
                   e: Event, src: Identity, scope: set<EventType>, d: Disposition)
    requires Persistent(src) && Split(v, f, db, dbn, v0, db0, home, ns)
    requires Disposed(e, src, scope, v) == Ok(d) && Reconstructing(e.etype)
    requires e.id in home
    ensures home[e.id] == e.ns
  {
    var c := CellOf(v, db, e.id);
    assert CellAt(v, f, db, dbn, v0, db0, home, ns, e.id);
    LocalFromCell(v, db, e);
    StaysHome(e, src, LocalOf(v, e), home[e.id], d);
  }

  lemma StaysHome(e: Event, src: Identity, l: Local, at: string, d: Disposition)
    requires Reconstructing(e.etype) && Decide(e, src, l) == Ok(d) && l.mutated
    requires l.live.Some? ==> l.live.value.ns == at
    requires l.tomb.Some? ==> l.tomb.value.seqNo < e.seqNo
    requires l.live.Some? || l.tomb.Some?
    ensures e.rec.ns == at
  {
  }

  /** The cell on which an event is applied: not tombstoned, and free or in its namespace. */
  predicate Appliable(c: Cell, e: Event, d: Disposition) {
    (d.ApplyCreate? ==> c.row.None?) && c.tomb.None? && (c.row.Some? ==> c.row.value.ns == e.rec.ns)
  }

  /** The cell step of an applied event whose namespace is its id's home. */
  lemma AtStep(c: Cell, cn: Cell, c0: Cell, home: Option<string>, ns: string, prev: int, e: Event, d: Disposition, src: Identity)
    requires At(c, cn, c0, home, ns, prev) && prev < e.seqNo && e.rec.ns == e.ns
    requires home == None || home == Some(e.ns)
    requires IsApply(d) && Appliable(c, e, d)
    ensures var cn' := if e.ns == ns then CellAfter(cn, e, d, src) else cn;
            At(CellAfter(c, e, d, src), cn', c0, Some(e.ns), ns, e.seqNo)
  {
  }

  /** A deduplicated event marks an id that is neither live nor tombstoned. */
  lemma AtDeduped(c: Cell, cn: Cell, c0: Cell, home: Option<string>, ns: string, prev: int, e: Event, src: Identity)
    requires At(c, cn, c0, home, ns, prev) && prev < e.seqNo && c.row.None? && c.tomb.None?
    ensures var cn' := if e.ns == ns then CellAfter(cn, e, SkipDeduped, src) else cn;
            At(CellAfter(c, e, SkipDeduped, src), cn', c0, home, ns, e.seqNo)
  {
  }

  lemma AtLater(c: Cell, cn: Cell, c0: Cell, home: Option<string>, ns: string, prev: int, now: int)
    requires At(c, cn, c0, home, ns, prev) && prev <= now
    ensures At(c, cn, c0, home, ns, now)
  {
  }

  lemma SplitDecision(v: View, f: View, db: DB, dbn: DB, v0: View, db0: DB, home: map<Id, string>,
                      e: Event, src: Identity, scope: set<EventType>, d: Disposition)
    requires Persistent(src) && Split(v, f, db, dbn, v0, db0, home, e.ns)
    requires Disposed(e, src, scope, v) == Ok(d)
    ensures Disposed(e, src, scope, f) == Ok(d)
  {
    if Reconstructing(e.etype) {
      if e.id in home { TouchedStaysHome(v, f, db, dbn, v0, db0, home, e.ns, e, src, scope, d); }
      assert e.rec.ns == e.ns;
      SameLocals(v, f, db, dbn, v0, db0, home, e.ns, e);
    }
  }

  /** What the run over the namespace does with an event of the full run. */
  function ScopedEffect(f: View, e: Event, d: Disposition, src: Identity, ns: string): View {
    if e.ns == ns then Effect(f, e, d, src) else f
  }

  function ScopedApply(dbn: DB, e: Event, d: Disposition, src: Identity, ns: string): DB {
    if e.ns == ns then ApplyOne(dbn, e, d, src) else dbn
  }

  lemma AppliedCell(v: View, db: DB, e: Event, src: Identity, d: Disposition)
    requires Coherent(v, db) && IsApply(d) && Admitted(v, e, src, d)
    ensures Appliable(CellOf(v, db, e.id), e, d)
  {
  }

  /** The id of an applied event is free or at home; a deduplicated one is neither live nor buried. */
  ghost predicate Homely(v: View, db: DB, home: map<Id, string>, e: Event, d: Disposition) {
    && (IsApply(d) ==> e.rec.ns == e.ns && (e.id in home ==> home[e.id] == e.ns) && Appliable(CellOf(v, db, e.id), e, d))
    && (d.SkipDeduped? ==> e.id !in db.rows && e.id !in db.tombs)
  }

  /** The event's own id after its disposition. */
  lemma OwnCell(c: Cell, cn: Cell, c0: Cell, home: Option<string>, ns: string, prev: int, e: Event, d: Disposition, src: Identity)
    requires At(c, cn, c0, home, ns, prev) && prev < e.seqNo
    requires IsApply(d) ==> e.rec.ns == e.ns && (home == None || home == Some(e.ns)) && Appliable(c, e, d)
    requires d.SkipDeduped? ==> c.row.None? && c.tomb.None?
    ensures var cn' := if e.ns == ns then CellAfter(cn, e, d, src) else cn;
            At(CellAfter(c, e, d, src), cn', c0, if IsApply(d) then Some(e.ns) else home, ns, e.seqNo)
  {
    if IsApply(d) {
      AtStep(c, cn, c0, home, ns, prev, e, d, src);
    } else if d.SkipDeduped? {
      AtDeduped(c, cn, c0, home, ns, prev, e, src);
    } else {
      AtLater(c, cn, c0, home, ns, prev, e.seqNo);
    }
  }

  lemma ScopedCellStep(f: View, dbn: DB, m: Id, e: Event, d: Disposition, src: Identity, ns: string)
    requires e.ns == ns ==> Lands(dbn, e, d)
    ensures CellOf(ScopedEffect(f, e, d, src, ns), ScopedApply(dbn, e, d, src, ns), m) ==
            if m == e.id && e.ns == ns then CellAfter(CellOf(f, dbn, m), e, d, src) else CellOf(f, dbn, m)
  {
    if e.ns == ns { CellStep(f, dbn, m, e, d, src); }
  }

  lemma SplitOwnCell(v: View, f: View, db: DB, dbn: DB, v0: View, db0: DB, home: map<Id, string>, home': map<Id, string>, ns: string,
                     e: Event, src: Identity, d: Disposition)
    requires CellAt(v, f, db, dbn, v0, db0, home, ns, e.id)
    requires v.prev < e.seqNo && Homely(v, db, home, e, d)
    requires Lands(db, e, d) && (e.ns == ns ==> Lands(dbn, e, d))
    requires home' == if IsApply(d) then home[e.id := e.ns] else home
    ensures CellAt(Effect(v, e, d, src), ScopedEffect(f, e, d, src, ns),
                   ApplyOne(db, e, d, src), ScopedApply(dbn, e, d, src, ns), v0, db0, home', ns, e.id)
  {
    var c, cn, c0 := CellOf(v, db, e.id), CellOf(f, dbn, e.id), CellOf(v0, db0, e.id);
    CellStep(v, db, e.id, e, d, src);
    ScopedCellStep(f, dbn, e.id, e, d, src, ns);
    OwnCell(c, cn, c0, Get(home, e.id), ns, v.prev, e, d, src);
  }

  lemma SplitOtherCell(v: View, f: View, db: DB, dbn: DB, v0: View, db0: DB, home: map<Id, string>, home': map<Id, string>, ns: string,
                       e: Event, src: Identity, d: Disposition, m: Id)
    requires CellAt(v, f, db, dbn, v0, db0, home, ns, m)
    requires v.prev < e.seqNo && m != e.id && Lands(db, e, d) && (e.ns == ns ==> Lands(dbn, e, d))
    requires home' == if IsApply(d) then home[e.id := e.ns] else home
    ensures CellAt(Effect(v, e, d, src), ScopedEffect(f, e, d, src, ns),
                   ApplyOne(db, e, d, src), ScopedApply(dbn, e, d, src, ns), v0, db0, home', ns, m)
  {
    CellStep(v, db, m, e, d, src);
    ScopedCellStep(f, dbn, m, e, d, src, ns);
    AtLater(CellOf(v, db, m), CellOf(f, dbn, m), CellOf(v0, db0, m), Get(home, m), ns, v.prev, e.seqNo);
  }

  lemma StepIsHomely(v: View, f: View, db: DB, dbn: DB, v0: View, db0: DB, home: map<Id, string>, ns: string,
                     e: Event, src: Identity, scope: set<EventType>, d: Disposition)
    requires Persistent(src) && Split(v, f, db, dbn, v0, db0, home, ns)
    requires Disposed(e, src, scope, v) == Ok(d)
    ensures Homely(v, db, home, e, d)
  {
    if IsApply(d) {
      ChangesAreAdmitted(v, e, src, scope, d);
      AppliedInNamespace(v, e, src, scope, d);
      AppliedCell(v, db, e, src, d);
      if e.id in home { TouchedStaysHome(v, f, db, dbn, v0, db0, home, ns, e, src, scope, d); }
    } else if d.SkipDeduped? {
      ChangesAreAdmitted(v, e, src, scope, d);
    }
  }

  /** Every id stays split. */
  lemma CellStaysSplit(v: View, f: View, db: DB, dbn: DB, v0: View, db0: DB, home: map<Id, string>, home': map<Id, string>, ns: string,
                       e: Event, src: Identity, d: Disposition, m: Id)
    requires CellAt(v, f, db, dbn, v0, db0, home, ns, m) && Homely(v, db, home, e, d) && v.prev < e.seqNo
    requires Lands(db, e, d) && (e.ns == ns ==> Lands(dbn, e, d))
    requires home' == if IsApply(d) then home[e.id := e.ns] else home
    ensures CellAt(Effect(v, e, d, src), ScopedEffect(f, e, d, src, ns),
                   ApplyOne(db, e, d, src), ScopedApply(dbn, e, d, src, ns), v0, db0, home', ns, m)
  {
    if m == e.id {
      SplitOwnCell(v, f, db, dbn, v0, db0, home, home', ns, e, src, d);
    } else {
      SplitOtherCell(v, f, db, dbn, v0, db0, home, home', ns, e, src, d, m);
    }
  }

  /** One event of the full run: the scoped run takes the same disposition if the event is in
      its namespace, and ignores it otherwise. */
  lemma SplitStep(v: View, f: View, db: DB, dbn: DB, v0: View, db0: DB, home: map<Id, string>, ns: string,
                  e: Event, src: Identity, scope: set<EventType>, d: Disposition) returns (home': map<Id, string>)
    requires Persistent(src) && Split(v, f, db, dbn, v0, db0, home, ns)
    requires Disposed(e, src, scope, v) == Ok(d)
    ensures e.ns == ns ==> Disposed(e, src, scope, f) == Ok(d)
    ensures Split(Effect(v, e, d, src), ScopedEffect(f, e, d, src, ns),
                  ApplyOne(db, e, d, src), ScopedApply(dbn, e, d, src, ns), v0, db0, home', ns)
  {
    home' := if IsApply(d) then home[e.id := e.ns] else home;
    SkipsAdvance(v, e, src, scope, d);
    StepIsExact(v, db, e, src, scope, d);
    StepIsHomely(v, f, db, dbn, v0, db0, home, ns, e, src, scope, d);
    if e.ns == ns {
      SplitDecision(v, f, db, dbn, v0, db0, home, e, src, scope, d);
      StepIsExact(f, dbn, e, src, scope, d);
    }
    forall m
      ensures CellAt(Effect(v, e, d, src), ScopedEffect(f, e, d, src, ns),
                     ApplyOne(db, e, d, src), ScopedApply(dbn, e, d, src, ns), v0, db0, home', ns, m)
    {
      assert CellAt(v, f, db, dbn, v0, db0, home, ns, m);
      CellStaysSplit(v, f, db, dbn, v0, db0, home, home', ns, e, src, d, m);
    }
    EffectMoves(v, e, d, src);
    EffectMoves(f, e, d, src);
  }

  lemma EffectMoves(v: View, e: Event, d: Disposition, src: Identity)
    ensures Effect(v, e, d, src).marks == v.marks && Effect(v, e, d, src).prev == e.seqNo
  {
  }

  lemma AppliedInNamespace(v: View, e: Event, src: Identity, scope: set<EventType>, d: Disposition)
    requires Disposed(e, src, scope, v) == Ok(d) && IsApply(d)
    ensures e.rec.ns == e.ns
  {
  }

  /** The whole window: the scoped run is accepted and stays split from the full run. */
  lemma {:induction false} RunSplits(es: seq<Event>, src: Identity, scope: set<EventType>, v0: View, db0: DB, ns: string)
      returns (home: map<Id, string>)
    requires Persistent(src) && UniqueRows(db0.rows) && v0 == EagerView(db0, v0.prev)
    requires PlanAll(es, src, scope, v0).Planned?
    ensures var part := InNamespace(es, ns);
            var p, q := PlanAll(es, src, scope, v0), PlanAll(part, src, scope, v0);
            q.Planned? && Split(p.view, q.view, ApplyAll(db0, es, p.ds, src), ApplyAll(db0, part, q.ds, src), v0, db0, home, ns)
  {
    if es == [] {
      home := map[];
      EagerViewIsCoherent(db0, v0.prev);
    } else {
      var n := |es| - 1;
      home := RunSplits(es[..n], src, scope, v0, db0, ns);
      var part, part' := InNamespace(es, ns), InNamespace(es[..n], ns);
      var p, q := PlanAll(es[..n], src, scope, v0), PlanAll(part', src, scope, v0);
      var d := Disposed(es[n], src, scope, p.view).value;
      assert PlanAll(es, src, scope, v0).ds[..n] == p.ds;
      home := SplitStep(p.view, q.view, ApplyAll(db0, es[..n], p.ds, src), ApplyAll(db0, part', q.ds, src),
                        v0, db0, home, ns, es[n], src, scope, d);
      if es[n].ns == ns {
        assert part[..|part| - 1] == part';
        assert PlanAll(part, src, scope, v0).ds[..|part'|] == q.ds;
      }
    }
  }

  function RowsIn(db: DB, ns: string): map<Id, Rec> {
    map m | m in db.rows && db.rows[m].ns == ns :: db.rows[m]
  }

  function TombsIn(db: DB, ns: string): map<Id, Tomb> {
    map m | m in db.tombs && db.tombs[m].ns == ns :: db.tombs[m]
  }

  /** Scoping commutes with replay: if a window replays, then replaying only its events of
      namespace `ns` replays too, gives the full result inside `ns`, and leaves every other
      namespace as it was. */
  lemma ScopingCommutes(es: seq<Event>, src: Identity, scope: set<EventType>, db: DB, start: int, ns: string)
    requires Persistent(src) && UniqueRows(db.rows)
    requires Replay(es, src, scope, db, start).Ok?
    ensures var full := Replay(es, src, scope, db, start).value;
            var scoped := Replay(InNamespace(es, ns), src, scope, db, start);
            scoped.Ok? &&
            RowsIn(scoped.value, ns) == RowsIn(full, ns) && TombsIn(scoped.value, ns) == TombsIn(full, ns) &&
            (forall m <- RowsIn(full, ns) :: Get(scoped.value.marks, m) == Get(full.marks, m)) &&
            forall k :: k != ns ==> RowsIn(scoped.value, k) == RowsIn(db, k) && TombsIn(scoped.value, k) == TombsIn(db, k)
  {
    var v0 := EagerView(db, start);
    var home := RunSplits(es, src, scope, v0, db, ns);
    var part := InNamespace(es, ns);
    var p, q := PlanAll(es, src, scope, v0), PlanAll(part, src, scope, v0);
    var full, scoped := ApplyAll(db, es, p.ds, src), ApplyAll(db, part, q.ds, src);
    forall m ensures SameInside(full, scoped, db, m, ns) {
      assert CellAt(p.view, q.view, full, scoped, v0, db, home, ns, m);
    }
    InsideGives(full, scoped, db, ns);
  }

  /** At id `m`, the scoped tables hold what the full ones do inside `ns`, and what was there
      before outside it. */
  ghost predicate SameInside(full: DB, scoped: DB, db: DB, m: Id, ns: string) {
    || (SameAt(scoped, full, m) && SameAt(full, db, m))
    || (SameAt(scoped, full, m) && InsideOnly(full, m, ns) && InsideOnly(db, m, ns))
    || (SameAt(scoped, db, m) && OutsideOnly(full, m, ns) && OutsideOnly(db, m, ns))
  }

  predicate SameAt(a: DB, b: DB, m: Id) {
    Get(a.rows, m) == Get(b.rows, m) && Get(a.tombs, m) == Get(b.tombs, m) &&
    (m in a.rows ==> Get(a.marks, m) == Get(b.marks, m))
  }

  predicate InsideOnly(db: DB, m: Id, ns: string) {
    (m in db.rows ==> db.rows[m].ns == ns) && (m in db.tombs ==> db.tombs[m].ns == ns)
  }

  predicate OutsideOnly(db: DB, m: Id, ns: string) {
    (m in db.rows ==> db.rows[m].ns != ns) && (m in db.tombs ==> db.tombs[m].ns != ns)
  }

  lemma InsideGives(full: DB, scoped: DB, db: DB, ns: string)
    requires forall m :: SameInside(full, scoped, db, m, ns)
    ensures RowsIn(scoped, ns) == RowsIn(full, ns) && TombsIn(scoped, ns) == TombsIn(full, ns)
    ensures forall m <- RowsIn(full, ns) :: Get(scoped.marks, m) == Get(full.marks, m)
    ensures forall k :: k != ns ==> RowsIn(scoped, k) == RowsIn(db, k) && TombsIn(scoped, k) == TombsIn(db, k)
  {
    forall m ensures SameIn(scoped, full, m, ns) { assert SameInside(full, scoped, db, m, ns); }
    SameTables(scoped, full, ns);
    forall m | m in RowsIn(full, ns) ensures Get(scoped.marks, m) == Get(full.marks, m) {
      assert SameInside(full, scoped, db, m, ns);
    }
    forall k | k != ns ensures RowsIn(scoped, k) == RowsIn(db, k) && TombsIn(scoped, k) == TombsIn(db, k) {
      forall m ensures SameIn(scoped, db, m, k) { assert SameInside(full, scoped, db, m, ns); }
      SameTables(scoped, db, k);
    }
  }

  predicate SameIn(a: DB, b: DB, m: Id, k: string) {
    Get(RowsIn(a, k), m) == Get(RowsIn(b, k), m) && Get(TombsIn(a, k), m) == Get(TombsIn(b, k), m)
  }

  lemma SameTables(a: DB, b: DB, k: string)
    requires forall m :: SameIn(a, b, m, k)
    ensures RowsIn(a, k) == RowsIn(b, k) && TombsIn(a, k) == TombsIn(b, k)
  {
    forall m ensures Get(RowsIn(a, k), m) == Get(RowsIn(b, k), m) && Get(TombsIn(a, k), m) == Get(TombsIn(b, k), m) {
      assert SameIn(a, b, m, k);
    }
    SameGets(RowsIn(a, k), RowsIn(b, k));
    SameGets(TombsIn(a, k), TombsIn(b, k));
  }

  /** No event moves an id to another namespace: while it stays live its namespace stays, and once
      it is gone it is tombstoned. */
  lemma NamespaceStays(v: View, e: Event, src: Identity, scope: set<EventType>, d: Disposition, m: Id, ns: string)
    requires Persistent(src) && Disposed(e, src, scope, v) == Ok(d)
    requires if m in v.live then v.live[m].ns == ns else m in v.tombs
    ensures var v' := Effect(v, e, d, src); if m in v'.live then v'.live[m].ns == ns else m in v'.tombs
  {
    if IsApply(d) { ChangesAreAdmitted(v, e, src, scope, d); }
  }

  lemma {:induction false} RunKeepsNamespace(es: seq<Event>, src: Identity, scope: set<EventType>, v: View, m: Id, ns: string)
    requires Persistent(src) && PlanAll(es, src, scope, v).Planned?
    requires if m in v.live then v.live[m].ns == ns else m in v.tombs
    ensures var v' := PlanAll(es, src, scope, v).view; if m in v'.live then v'.live[m].ns == ns else m in v'.tombs
  {
    if es != [] {
      var n := |es| - 1;
      RunKeepsNamespace(es[..n], src, scope, v, m, ns);
      NamespaceStays(PlanAll(es[..n], src, scope, v).view, es[n], src, scope, PlanAll(es, src, scope, v).ds[n], m, ns);
    }
  }

  /** Replay never moves a record: whatever it replays, a record of the target is still in its
      namespace afterwards, or tombstoned. */
  lemma NeverMoves(es: seq<Event>, src: Identity, scope: set<EventType>, db: DB, start: int, m: Id)
    requires Persistent(src) && UniqueRows(db.rows) && m in db.rows && Replay(es, src, scope, db, start).Ok?
    ensures var after := Replay(es, src, scope, db, start).value;
            if m in after.rows then after.rows[m].ns == db.rows[m].ns else m in after.tombs
  {
    var v := EagerView(db, start);
    EagerViewIsCoherent(db, start);
    PlanningIsExact(es, src, scope, v, db);
    RunKeepsNamespace(es, src, scope, v, m, db.rows[m].ns);
  }
}
