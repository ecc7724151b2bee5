/** Replaying a window of another scope on a replica that holds all of one namespace. */
module CrossReplay {
  import opened Records
  import opened Planner
  import opened Execution
  import opened Idempotence
  import opened Composition
  import opened Repetition
  import opened Resume
  import opened Scoping
  import opened History
  import opened Retention
  import opened Sources
  import opened Replication
  import opened CrossScope

  /** Two sets of tables side by side. */
  function JoinDB(a: DB, b: DB): DB {
    DB(a.rows + b.rows, a.tombs + b.tombs, map[])
  }

  function Ids(db: DB): set<Id> {
    db.rows.Keys + db.tombs.Keys
  }

  /** `a` is of namespace `n`, `b` of others, and they have no id in common. */
  ghost predicate Apart(a: DB, b: DB, n: string) {
    Ids(a) !! Ids(b) && (forall m <- a.rows :: a.rows[m].ns == n) && (forall m <- b.rows :: b.rows[m].ns != n)
  }

  lemma JoinIsConsistent(a: DB, b: DB, n: string)
    requires Consistent(a) && Consistent(b) && Apart(a, b, n)
    ensures Consistent(JoinDB(a, b))
  {
  }

  lemma EmittedInJoin(a: DB, b: DB, e: Event, src: Identity, n: string)
    requires Emitted(b, e, src) && Apart(a, b, n) && e.ns != n && (Reconstructing(e.etype) ==> e.id !in Ids(a))
    ensures Emitted(JoinDB(a, b), e, src)
  {
    if Reconstructing(e.etype) {
      var db := JoinDB(a, b);
      assert e.rec.ns == e.ns;
      assert forall m :: Holder(db.rows, e.rec.ns, e.rec.chash, m) ==> Holder(b.rows, e.rec.ns, e.rec.chash, m);
    }
  }

  lemma PutRight<K, V>(a: map<K, V>, b: map<K, V>, k: K, v: V)
    ensures (a + b)[k := v] == a + b[k := v]
  {
  }

  lemma DropRight<K, V>(a: map<K, V>, b: map<K, V>, k: K)
    requires k !in a
    ensures (a + b) - {k} == a + (b - {k})
  {
  }

  lemma WriteInJoin(a: DB, b: DB, e: Event, src: Identity)
    requires Reconstructing(e.etype) ==> e.id !in Ids(a)
    ensures Write(JoinDB(a, b), e, src).rows == JoinDB(a, Write(b, e, src)).rows
    ensures Write(JoinDB(a, b), e, src).tombs == JoinDB(a, Write(b, e, src)).tombs
  {
    if e.etype.Created? || e.etype.Updated? {
      PutRight(a.rows, b.rows, e.id, e.rec);
    } else if e.etype.Deleted? {
      DropRight(a.rows, b.rows, e.id);
      PutRight(a.tombs, b.tombs, e.id, TombOf(e, KeptOf(b.rows, e.id)));
    }
  }

  lemma WriteStaysApart(a: DB, b: DB, e: Event, src: Identity, n: string)
    requires Emitted(b, e, src) && Apart(a, b, n) && e.ns != n && (Reconstructing(e.etype) ==> e.id !in Ids(a))
    ensures Apart(a, Write(b, e, src), n)
    ensures Ids(Write(b, e, src)) == if e.etype.Created? then Ids(b) + {e.id} else Ids(b)
  {
  }

  lemma SameStateOf(x: DB, y: DB, z: DB)
    requires SameState(x, y) && y.rows == z.rows && y.tombs == z.tombs
    ensures SameState(x, z)
  {
  }

  /** A run over the window, `b` being what its events outside `n` have written so far. */
  ghost predicate Joint(v: View, db: DB, marks: map<Id, Mark>, a: DB, b: DB, n: string) {
    InStep(v, db, JoinDB(a, b)) && Apart(a, b, n) && v.marks == marks && v.mutated == Ids(b) && v.created <= v.mutated
  }

  lemma MutatedNext(v: View, e: Event, src: Identity, mine: DB, db: DB, b: DB)
    requires Emitted(b, e, src) && v.mutated == Ids(b) && v.created <= v.mutated
    ensures var v' := Effect(v, e, Expected(db, e), src);
            v'.mutated == (if e.etype.Created? then Ids(b) + {e.id} else Ids(b)) && v'.created <= v'.mutated
  {
  }

  /** An event outside `n` does what it did at the source. */
  lemma JointNext(v: View, db: DB, marks: map<Id, Mark>, a: DB, b: DB, n: string, e: Event, src: Identity)
    requires Persistent(src) && Joint(v, db, marks, a, b, n) && Consistent(a) && Consistent(b)
    requires Emitted(b, e, src) && e.ns != n && (Reconstructing(e.etype) ==> e.id !in Ids(a))
    requires Portable(e) && e.seqNo > v.prev
    ensures var d := Expected(db, e);
            Disposed(e, src, ALL_RECONSTRUCTING, v) == Ok(d) &&
            Joint(Effect(v, e, d, src), ApplyOne(db, e, d, src), marks, a, Write(b, e, src), n)
  {
    var mine, d := JoinDB(a, b), Expected(db, e);
    JoinIsConsistent(a, b, n);
    EmittedInJoin(a, b, e, src, n);
    InStepNext(v, db, mine, e, src);
    WriteInJoin(a, b, e, src);
    WriteStaysApart(a, b, e, src, n);
    SameStateOf(ApplyOne(db, e, d, src), Write(mine, e, src), JoinDB(a, Write(b, e, src)));
    MutatedNext(v, e, src, mine, db, b);
    EffectKeeps(v, e, d, src);
  }

  /** What a run sees of an id of namespace `n` is what it saw at its start. */
  lemma SeesAtStart(v: View, db: DB, at: DB, a: DB, b: DB, n: string, e: Event)
    requires Joint(v, db, at.marks, a, b, n) && SameState(at, a) && e.id in Ids(a)
    ensures LocalOf(v, e).(holder := None) == Fresh(at, e)
  {
    assert LiveRows(db.rows) == LiveRows(JoinDB(a, b).rows);
    assert e.id !in Ids(b);
    LiveInJoin(a, b, e.id);
    assert Get(v.live, e.id) == Get(LiveRows(at.rows), e.id);
    GravesOfJoin(db, at, a, b, e.id);
  }

  lemma LiveInJoin(a: DB, b: DB, m: Id)
    requires m !in b.rows
    ensures Get(LiveRows(JoinDB(a, b).rows), m) == Get(LiveRows(a.rows), m)
  {
  }

  lemma GravesOfJoin(db: DB, at: DB, a: DB, b: DB, m: Id)
    requires SameState(db, JoinDB(a, b)) && SameState(at, a) && m !in b.tombs
    ensures Get(Graves(db.tombs), m) == Get(Graves(at.tombs), m)
  {
    if m in a.tombs {
      assert db.tombs[m].(kept := "") == JoinDB(a, b).tombs[m].(kept := "");
      assert at.tombs[m].(kept := "") == a.tombs[m].(kept := "");
      assert GraveOf(db.tombs[m]) == GraveOf(at.tombs[m]);
    }
  }

  lemma KnownInView(v: View, db: DB, a: DB, b: DB, m: Id)
    requires Coherent(v, db) && SameState(db, JoinDB(a, b)) && m in Ids(a)
    ensures m in v.live || m in v.tombs
  {
    if m in a.rows { assert m in LiveRows(JoinDB(a, b).rows); }
  }

  /** An event of `n` that the tables at the start have settled is taken for already applied. */
  lemma OwnDecision(v: View, db: DB, at: DB, a: DB, b: DB, n: string, e: Event, src: Identity)
    requires Joint(v, db, at.marks, a, b, n) && SameState(at, a) && Settled(at, e, src)
    requires Reconstructing(e.etype) && e.id in Ids(a)
    ensures Decide(e, src, LocalOf(v, e)) == Ok(SkipIdempotent)
  {
    SeesAtStart(v, db, at, a, b, n, e);
    HolderIgnoredInSkips(e, src, Fresh(at, e), LocalOf(v, e).holder);
    DedupedIsUnknown(e, src, LocalOf(v, e));
    KnownInView(v, db, a, b, e.id);
  }

  lemma JointMoves(v: View, db: DB, marks: map<Id, Mark>, a: DB, b: DB, n: string, s: int)
    requires Joint(v, db, marks, a, b, n) && s >= 0
    ensures Joint(v.(prev := s), db, marks, a, b, n)
  {
  }

  lemma SkipIs(v: View, db: DB, e: Event, src: Identity)
    requires CheckEvent(e, v.prev, src, ALL_RECONSTRUCTING).None?
    requires Reconstructing(e.etype) ==> Decide(e, src, LocalOf(v, e)) == Ok(SkipIdempotent)
    ensures var r := Disposed(e, src, ALL_RECONSTRUCTING, v);
            r.Ok? && ApplyOne(db, e, r.value, src) == db && Effect(v, e, r.value, src) == v.(prev := e.seqNo)
    ensures e.seqNo > 0
  {
  }

  /** It is skipped, and the run stands as before. */
  lemma JointSkips(v: View, db: DB, at: DB, a: DB, b: DB, n: string, e: Event, src: Identity)
    requires Joint(v, db, at.marks, a, b, n) && SameState(at, a) && Settled(at, e, src)
    requires Reconstructing(e.etype) ==> e.id in Ids(a)
    requires CheckEvent(e, v.prev, src, ALL_RECONSTRUCTING).None?
    ensures var r := Disposed(e, src, ALL_RECONSTRUCTING, v);
            r.Ok? && ApplyOne(db, e, r.value, src) == db && Effect(v, e, r.value, src) == v.(prev := e.seqNo) &&
            Joint(v.(prev := e.seqNo), db, at.marks, a, b, n)
  {
    if Reconstructing(e.etype) { OwnDecision(v, db, at, a, b, n, e, src); }
    SkipIs(v, db, e, src);
    JointMoves(v, db, at.marks, a, b, n, e.seqNo);
  }

  // ---------- the source side ----------

  /** The id is live or tombstoned in namespace `k`. */
  predicate Home(db: DB, m: Id, k: string) {
    (m in db.rows && db.rows[m].ns == k) || (m in db.tombs && db.tombs[m].ns == k)
  }

  lemma WriteGivesHome(db: DB, e: Event, src: Identity, m: Id, k: string)
    requires Emitted(db, e, src) && Consistent(db)
    requires if Reconstructing(e.etype) && e.id == m then k == e.ns else Home(db, m, k)
    ensures Home(Write(db, e, src), m, k)
  {
  }

  lemma WriteKeepsHome(db: DB, e: Event, src: Identity, m: Id, k: string)
    requires Emitted(db, e, src) && Consistent(db) && Home(db, m, k)
    ensures Home(Write(db, e, src), m, k)
  {
  }

  /** Every id that a source has written stays in the namespace of its events. */
  lemma {:induction false} WrittenAtHome(hist: seq<Event>, i: nat, src: Identity)
    requires Sourced(hist, src) && i < |hist| && Reconstructing(hist[i].etype)
    ensures Home(Tables(hist, src), hist[i].id, hist[i].ns)
  {
    var past, e := Snoc(hist);
    SourcedSnoc(past, e, src);
    if i < |past| {
      WrittenAtHome(past, i, src);
      WriteKeepsHome(Tables(past, src), e, src, hist[i].id, hist[i].ns);
    } else {
      WriteGivesHome(Tables(past, src), e, src, hist[i].id, hist[i].ns);
    }
  }

  /** The tables of one namespace's history hold the ids of its events, and no others. */
  lemma OwnIdsOnly(hist: seq<Event>, src: Identity, n: string, e: Event)
    requires Sourced(hist, src) && e in hist && Reconstructing(e.etype)
    ensures e.id in Ids(Tables(InScope(hist, Some(n), 0), src)) <==> e.ns == n
  {
    var i :| 0 <= i < |hist| && hist[i] == e;
    WrittenAtHome(hist, i, src);
    SourceIsConsistent(hist, src);
    ScopeIsSourced(hist, src, n);
  }

  // ---------- the run ----------

  /** The target `at` holds all of namespace `n`, whose part of the source is `a`. */
  ghost predicate Setting(hist: seq<Event>, src: Identity, n: string, at: DB, a: DB) {
    var own := InScope(hist, Some(n), 0);
    && Persistent(src) && Sourced(hist, src) && UniqueRows(at.rows) && NoLegacyMarks(at.marks)
    && a == Tables(own, src) && SameState(at, a) && Nameable(a.rows) && Consistent(a)
    && forall e <- own :: Portable(e) && Settled(at, e, src)
  }

  lemma {:induction false} InScopeHas(es: seq<Event>, ns: Option<string>, after: int, e: Event)
    requires e in es && e.seqNo > after && (ns.Some? ==> e.ns == ns.value)
    ensures e in InScope(es, ns, after)
  {
    var m := |es| - 1;
    assert es == es[..m] + [es[m]];
    if es[m] != e { InScopeHas(es[..m], ns, after, e); }
  }

  lemma InScopeSnoc(past: seq<Event>, e: Event, ns: Option<string>, s: int)
    ensures InScope(past + [e], ns, s) ==
            if e.seqNo > s && (ns.Some? ==> e.ns == ns.value) then InScope(past, ns, s) + [e] else InScope(past, ns, s)
  {
    assert (past + [e])[..|past|] == past;
  }

  lemma LastBefore(past: seq<Event>, e: Event, ns: Option<string>, s: int)
    requires Increasing(past + [e]) && e.seqNo > s
    ensures LastSeq(InScope(past, ns, s), s) < e.seqNo
  {
    var w, all := InScope(past, ns, s), past + [e];
    InScopeIsPart(past, ns, s);
    if w != [] {
      assert w[|w| - 1] in past;
      var i :| 0 <= i < |past| && past[i] == w[|w| - 1];
      assert all[i].seqNo < all[|past|].seqNo;
    }
  }

  /** A run over `w` from the tables `at`, whose events outside `n` have written `b`. */
  ghost predicate Reaches(w: seq<Event>, b: DB, src: Identity, n: string, s: int, at: DB, a: DB)
    requires UniqueRows(at.rows)
  {
    var p := PlanAll(w, src, ALL_RECONSTRUCTING, EagerView(at, s));
    p.Planned? && p.view.prev == LastSeq(w, s) && Joint(p.view, ApplyAll(at, w, p.ds, src), at.marks, a, b, n)
  }

  lemma JointAtStart(v: View, at: DB, a: DB, n: string)
    requires Coherent(v, at) && SameState(at, a) && Nameable(a.rows) && v.prev >= 0 && v.marks == at.marks
    requires v.mutated == {} && v.created == {} && forall m <- a.rows :: a.rows[m].ns == n
    ensures Joint(v, at, at.marks, a, EMPTY_DB, n)
  {
    assert JoinDB(a, EMPTY_DB).rows == a.rows && JoinDB(a, EMPTY_DB).tombs == a.tombs;
    SameStateOf(at, a, JoinDB(a, EMPTY_DB));
  }

  lemma ReachesStart(src: Identity, n: string, s: int, at: DB, a: DB)
    requires UniqueRows(at.rows) && SameState(at, a) && Nameable(a.rows) && s >= 0
    requires forall m <- a.rows :: a.rows[m].ns == n
    ensures Reaches([], EMPTY_DB, src, n, s, at, a)
  {
    EagerViewIsCoherent(at, s);
    JointAtStart(EagerView(at, s), at, a, n);
  }

  /** The next event is outside `n`. */
  lemma ReachesStranger(w: seq<Event>, b: DB, e: Event, src: Identity, n: string, s: int, at: DB, a: DB)
    requires Persistent(src) && UniqueRows(at.rows) && Reaches(w, b, src, n, s, at, a) && Consistent(a) && Consistent(b)
    requires Emitted(b, e, src) && e.ns != n && (Reconstructing(e.etype) ==> e.id !in Ids(a))
    requires Portable(e) && e.seqNo > LastSeq(w, s)
    ensures Reaches(w + [e], Write(b, e, src), src, n, s, at, a)
  {
    var q := PlanAll(w, src, ALL_RECONSTRUCTING, EagerView(at, s));
    var db := ApplyAll(at, w, q.ds, src);
    JointNext(q.view, db, at.marks, a, b, n, e, src);
    PlanSnoc(w, e, src, ALL_RECONSTRUCTING, EagerView(at, s), at);
    EffectKeeps(q.view, e, Expected(db, e), src);
  }

  /** The next event is of `n`. */
  lemma ReachesOwn(w: seq<Event>, b: DB, e: Event, src: Identity, n: string, s: int, at: DB, a: DB)
    requires UniqueRows(at.rows) && Reaches(w, b, src, n, s, at, a) && SameState(at, a) && Settled(at, e, src)
    requires Reconstructing(e.etype) ==> e.id in Ids(a)
    requires CheckEvent(e, LastSeq(w, s), src, ALL_RECONSTRUCTING).None?
    ensures Reaches(w + [e], b, src, n, s, at, a)
  {
    var q := PlanAll(w, src, ALL_RECONSTRUCTING, EagerView(at, s));
    JointSkips(q.view, ApplyAll(at, w, q.ds, src), at, a, b, n, e, src);
    PlanSnoc(w, e, src, ALL_RECONSTRUCTING, EagerView(at, s), at);
  }

  /** An event outside `n`, as the others see it. */
  lemma StrangerIsEmitted(past: seq<Event>, e: Event, src: Identity, n: string, ns: Option<string>, s: int)
    requires Sourced(past + [e], src) && Closed(past + [e], n, ns, s) && e.seqNo > s && Outside(e.ns, n, ns)
    ensures var f := Strangers(past, n, ns, s);
            Emitted(Tables(f, src), e, src) && Consistent(Tables(f, src)) && Tables(f + [e], src) == Write(Tables(f, src), e, src)
  {
    var f := Strangers(past, n, ns, s);
    SourcedSnoc(past, e, src);
    ClosedBefore(past, e, src, n, ns, s);
    StrangersStandAlone(past, src, n, ns, s);
    EmittedAlone(Tables(past, src), Tables(f, src), e, src, n, ns, Newborns(past, s));
    SourceIsConsistent(f, src);
    assert (f + [e])[..|f|] == f;
  }

  /** An event of `n`, as the target sees it. */
  lemma OwnIsPassed(past: seq<Event>, e: Event, src: Identity, ns: Option<string>, s: int)
    requires Persistent(src) && Sourced(past + [e], src) && s >= 0 && e.seqNo > s && Portable(e)
    ensures CheckEvent(e, LastSeq(InScope(past, ns, s), s), src, ALL_RECONSTRUCTING).None?
  {
    SourcedSnoc(past, e, src);
    SourcedIncreases(past + [e], src);
    LastBefore(past, e, ns, s);
    LastIsAfter(past, ns, s);
    PortableIffChecked(Tables(past, src), e, src, LastSeq(InScope(past, ns, s), s));
  }

  lemma {:induction false} LastIsAfter(es: seq<Event>, ns: Option<string>, s: int)
    ensures LastSeq(InScope(es, ns, s), s) >= s
  {
    if es != [] { LastIsAfter(es[..|es| - 1], ns, s); }
  }

  /** One more event of the source: it is in the window and outside `n`, in the window and of `n`, or not
      in the window. */
  lemma ArrivesNext(hist: seq<Event>, past: seq<Event>, e: Event, src: Identity, n: string, ns: Option<string>, s: int, at: DB, a: DB)
    requires Setting(hist, src, n, at, a) && e in hist && Sourced(past + [e], src) && Closed(past + [e], n, ns, s) && s >= 0
    requires Reaches(InScope(past, ns, s), Tables(Strangers(past, n, ns, s), src), src, n, s, at, a)
    requires e.seqNo > s && Outside(e.ns, n, ns) ==> Portable(e)
    ensures Reaches(InScope(past + [e], ns, s), Tables(Strangers(past + [e], n, ns, s), src), src, n, s, at, a)
  {
    var w, f := InScope(past, ns, s), Strangers(past, n, ns, s);
    InScopeSnoc(past, e, ns, s);
    StrangersSnoc(past, e, n, ns, s);
    if e.seqNo > s && (ns.Some? ==> e.ns == ns.value) {
      if Reconstructing(e.etype) { OwnIdsOnly(hist, src, n, e); }
      if e.ns == n {
        LastIsPositive(past + [e], src);
        InScopeHas(hist, Some(n), 0, e);
        OwnIsPassed(past, e, src, ns, s);
        ReachesOwn(w, Tables(f, src), e, src, n, s, at, a);
      } else {
        SourcedIncreases(past + [e], src);
        LastBefore(past, e, ns, s);
        StrangerIsEmitted(past, e, src, n, ns, s);
        ReachesStranger(w, Tables(f, src), e, src, n, s, at, a);
      }
    }
  }

  /** The window replays if what it has outside `n` is portable and changes only records that it
      creates; then those arrive beside what the target held. */
  lemma {:induction false} WindowArrives(hist: seq<Event>, past: seq<Event>, src: Identity, n: string, ns: Option<string>, s: int, at: DB, a: DB)
    requires Setting(hist, src, n, at, a) && past <= hist && Sourced(past, src) && s >= 0 && Closed(past, n, ns, s)
    requires forall m <- a.rows :: a.rows[m].ns == n
    requires forall e <- past :: e.seqNo > s && Outside(e.ns, n, ns) ==> Portable(e)
    ensures Reaches(InScope(past, ns, s), Tables(Strangers(past, n, ns, s), src), src, n, s, at, a)
  {
    if past == [] {
      ReachesStart(src, n, s, at, a);
    } else {
      var before, e := Snoc(past);
      SourcedSnoc(before, e, src);
      ClosedBefore(before, e, src, n, ns, s);
      assert e in past && e in hist;
      WindowArrives(hist, before, src, n, ns, s, at, a);
      ArrivesNext(hist, before, e, src, n, ns, s, at, a);
    }
  }

  // ---------- when, and what arrives ----------

  /** The part of the source that the replica gets to hold: all of namespace `n`, and of the scope's
      other namespaces the records with the ids `born`. */
  function Arrived(db: DB, n: string, ns: Option<string>, born: set<Id>): DB {
    DB(map m | m in db.rows && (db.rows[m].ns == n || (Outside(db.rows[m].ns, n, ns) && m in born)) :: db.rows[m],
       map m | m in db.tombs && (db.tombs[m].ns == n || (Outside(db.tombs[m].ns, n, ns) && m in born)) :: db.tombs[m],
       map[])
  }

  /** The part of the source that a cursor of scope `ns` stands for, with namespace `n`. */
  function Meant(db: DB, n: string, ns: Option<string>): DB {
    DB(map m | m in db.rows && (db.rows[m].ns == n || Outside(db.rows[m].ns, n, ns)) :: db.rows[m],
       map m | m in db.tombs && (db.tombs[m].ns == n || Outside(db.tombs[m].ns, n, ns)) :: db.tombs[m],
       map[])
  }

  ghost predicate PortableOutside(hist: seq<Event>, n: string, ns: Option<string>, s: int) {
    forall e <- hist :: e.seqNo > s && Outside(e.ns, n, ns) ==> Portable(e)
  }

  lemma JoinIsArrived(a: DB, b: DB, db: DB, n: string, ns: Option<string>, born: set<Id>)
    requires a.rows == RowsIn(db, n) && a.tombs == TombsIn(db, n) && HoldsOthers(b, db, n, ns, born)
    ensures JoinDB(a, b) == Arrived(db, n, ns, born)
  {
    JoinedRows(db, n, ns, born);
    JoinedTombs(db, n, ns, born);
  }

  lemma JoinedRows(db: DB, n: string, ns: Option<string>, born: set<Id>)
    ensures RowsIn(db, n) + OtherRows(db.rows, n, ns, born) == Arrived(db, n, ns, born).rows
  {
  }

  lemma JoinedTombs(db: DB, n: string, ns: Option<string>, born: set<Id>)
    ensures TombsIn(db, n) + OtherTombs(db.tombs, n, ns, born) == Arrived(db, n, ns, born).tombs
  {
  }

  /** A replica that holds all of namespace `n` is such a target. */
  lemma HoldingSets(hist: seq<Event>, src: Identity, n: string, at: DB)
    requires Persistent(src) && Sourced(hist, src)
    requires Replay(InScope(hist, Some(n), 0), src, ALL_RECONSTRUCTING, EMPTY_DB, 0) == Ok(at)
    ensures Setting(hist, src, n, at, Tables(InScope(hist, Some(n), 0), src))
  {
    var own := InScope(hist, Some(n), 0);
    ScopeIsSourced(hist, src, n);
    ReplayConverges(own, src);
    PortableRuns(own, src);
    SourceIsConsistent(own, src);
    ReplayKeepsUnique(own, src, ALL_RECONSTRUCTING, EMPTY_DB, 0);
    AfterHasNoLegacy(own, src, ALL_RECONSTRUCTING, EMPTY_DB, 0);
    OwnAreSettled(own, src, at);
  }

  lemma OwnAreSettled(own: seq<Event>, src: Identity, at: DB)
    requires Persistent(src) && Replay(own, src, ALL_RECONSTRUCTING, EMPTY_DB, 0) == Ok(at)
    ensures forall e <- own :: Settled(at, e, src)
  {
    UnmarkedIsRepeatable(own, 0, EMPTY_DB, src);
    forall e | e in own ensures Settled(at, e, src) {
      var i :| 0 <= i < |own| && own[i] == e;
      SettledExactly(own, i, src, ALL_RECONSTRUCTING, EMPTY_DB, 0);
    }
  }

  lemma WindowReplays(hist: seq<Event>, src: Identity, n: string, ns: Option<string>, s: int, at: DB)
    requires Setting(hist, src, n, at, Tables(InScope(hist, Some(n), 0), src)) && s >= 0
    requires Closed(hist, n, ns, s) && PortableOutside(hist, n, ns, s)
    ensures var out := Replay(InScope(hist, ns, s), src, ALL_RECONSTRUCTING, at, s);
            out.Ok? && SameState(out.value, Arrived(Tables(hist, src), n, ns, Newborns(hist, s)))
  {
    var a := Tables(InScope(hist, Some(n), 0), src);
    ScopeIsSourced(hist, src, n);
    WindowArrives(hist, hist, src, n, ns, s, at, a);
    StrangersStandAlone(hist, src, n, ns, s);
    JoinIsArrived(a, Tables(Strangers(hist, n, ns, s), src), Tables(hist, src), n, ns, Newborns(hist, s));
  }

  lemma CheckedAtZero(e: Event, prev: int, src: Identity, scope: set<EventType>)
    requires CheckEvent(e, prev, src, scope).None?
    ensures CheckEvent(e, 0, src, scope).None? && e.seqNo > 0
  {
  }

  /** A window that replays is portable. */
  lemma ReplayedIsPortable(hist: seq<Event>, src: Identity, n: string, ns: Option<string>, s: int, at: DB)
    requires Persistent(src) && Sourced(hist, src) && UniqueRows(at.rows)
    requires Replay(InScope(hist, ns, s), src, ALL_RECONSTRUCTING, at, s).Ok?
    ensures PortableOutside(hist, n, ns, s)
  {
    var w := InScope(hist, ns, s);
    PlannedPassesChecks(w, src, ALL_RECONSTRUCTING, EagerView(at, s));
    forall e | e in hist && e.seqNo > s && Outside(e.ns, n, ns) ensures Portable(e) {
      InScopeHas(hist, ns, s, e);
      var i :| 0 <= i < |w| && w[i] == e;
      ChecksOfPrefix(w, i, src, ALL_RECONSTRUCTING, s);
      CheckedAtZero(e, LastSeq(w[..i], s), src, ALL_RECONSTRUCTING);
      var j :| 0 <= j < |hist| && hist[j] == e;
      SourcedPrefix(hist, j, src);
      SourceIsConsistent(hist[..j], src);
      PortableIffChecked(Tables(hist[..j], src), e, src, 0);
    }
  }

  /** A window that replays changes outside `n` only what it creates. */
  lemma ReplayedIsClosed(hist: seq<Event>, src: Identity, n: string, ns: Option<string>, s: int, at: DB)
    requires Setting(hist, src, n, at, Tables(InScope(hist, Some(n), 0), src))
    requires Replay(InScope(hist, ns, s), src, ALL_RECONSTRUCTING, at, s).Ok?
    ensures Closed(hist, n, ns, s)
  {
    forall e | e in hist && e.seqNo > s && Outside(e.ns, n, ns) && (e.etype.Updated? || e.etype.Deleted?)
      ensures e.id in Newborns(hist, s)
    {
      OwnIdsOnly(hist, src, n, e);
      KeysOfState(at, Tables(InScope(hist, Some(n), 0), src));
      InScopeHas(hist, ns, s, e);
      ChangedWasBorn(hist, e, src, ns, s, at);
    }
  }

  lemma KeysOfState(a: DB, b: DB)
    requires SameState(a, b)
    ensures a.rows.Keys == b.rows.Keys && a.tombs.Keys == b.tombs.Keys
  {
    assert a.rows.Keys == LiveRows(a.rows).Keys && b.rows.Keys == LiveRows(b.rows).Keys;
  }

  /** A window that replays creates the records that it changes and that the target has not heard of. */
  lemma ChangedWasBorn(hist: seq<Event>, e: Event, src: Identity, ns: Option<string>, s: int, at: DB)
    requires Persistent(src) && UniqueRows(at.rows) && NoLegacyMarks(at.marks) && Unheard(at, e.id)
    requires Replay(InScope(hist, ns, s), src, ALL_RECONSTRUCTING, at, s).Ok?
    requires e in InScope(hist, ns, s) && (e.etype.Updated? || e.etype.Deleted?)
    ensures e.id in Newborns(hist, s)
  {
    var w := InScope(hist, ns, s);
    var i :| 0 <= i < |w| && w[i] == e;
    DedupedExactly(w, i, src, ALL_RECONSTRUCTING, at, s);
    BirthIs(w, e.id);
    var j := BirthOf(w, e.id);
    assert 0 <= j && w[j] in w;
    InScopeIsAfter(hist, ns, s);
  }

  lemma {:induction false} InScopeIsAfter(es: seq<Event>, ns: Option<string>, s: int)
    ensures forall e <- InScope(es, ns, s) :: e in es && e.seqNo > s
  {
    if es != [] {
      InScopeIsAfter(es[..|es| - 1], ns, s);
      assert es == es[..|es| - 1] + [es[|es| - 1]];
    }
  }

  /** A replica that holds all of namespace `n` replays with an accepted cursor of any scope. It
      succeeds exactly if what the cursor's window has outside `n` is portable and changes only
      records that it creates; then those records arrive, and nothing that the source created
      before the cursor outside `n`. */
  lemma ArrivesExactly(r: Replica, w: World, c: Cursor, want: Option<string>, n: string)
    requires InScopeReplica(r, w, Some(n), |InScope(w.hist, Some(n), 0)|) && UniqueRows(r.db.rows) && WellFormed(c)
    requires CheckCursor(w.store.log, w.store.identity, c, want).None? && HasBase(r.saved, c)
    ensures var out := ReplayFrom(w.store, r, c, want, None);
            (out.Ok? <==> CursorCovers(w.hist, c) && PortableOutside(w.hist, n, c.ns, c.seqNo) && Closed(w.hist, n, c.ns, c.seqNo)) &&
            (out.Ok? ==>
               SameState(out.value.db, Arrived(Tables(w.hist, w.store.identity), n, c.ns, Newborns(w.hist, c.seqNo))))
  {
    var src, hist := w.store.identity, w.hist;
    HoldingIsOwn(r, w, Some(n), |InScope(hist, Some(n), 0)|);
    OwnIsNotGuarded(w.store, r, c, want, None);
    AcceptedIsAddressed(w.store, c, want);
    WindowIsComplete(w.store.log, hist, src, c, want, c.ns);
    ReplayUnderTypes(InScope(hist, c.ns, c.seqNo), src, c.types, r.db, c.seqNo);
    assert InScope(hist, Some(n), 0)[..|InScope(hist, Some(n), 0)|] == InScope(hist, Some(n), 0);
    HoldingSets(hist, src, n, r.db);
    CrossWindow(hist, src, n, c.ns, c.seqNo, r.db);
  }

  lemma CrossWindow(hist: seq<Event>, src: Identity, n: string, ns: Option<string>, s: int, at: DB)
    requires Setting(hist, src, n, at, Tables(InScope(hist, Some(n), 0), src)) && s >= 0
    ensures var out := Replay(InScope(hist, ns, s), src, ALL_RECONSTRUCTING, at, s);
            (out.Ok? <==> PortableOutside(hist, n, ns, s) && Closed(hist, n, ns, s)) &&
            (out.Ok? ==> SameState(out.value, Arrived(Tables(hist, src), n, ns, Newborns(hist, s))))
  {
    if Replay(InScope(hist, ns, s), src, ALL_RECONSTRUCTING, at, s).Ok? {
      ReplayedIsPortable(hist, src, n, ns, s, at);
      ReplayedIsClosed(hist, src, n, ns, s, at);
    }
    if PortableOutside(hist, n, ns, s) && Closed(hist, n, ns, s) { WindowReplays(hist, src, n, ns, s, at); }
  }

  // ---------- when it is all that was meant ----------

  /** The source wrote nothing outside `n` up to the position. */
  ghost predicate NothingOutsideBefore(hist: seq<Event>, n: string, ns: Option<string>, s: int) {
    forall e <- hist :: Outside(e.ns, n, ns) && Reconstructing(e.etype) ==> e.seqNo > s
  }

  /** Every id a source has heard of was created. */
  lemma {:induction false} KnownWasBorn(hist: seq<Event>, src: Identity, m: Id)
    requires Sourced(hist, src) && !Unheard(Tables(hist, src), m)
    ensures BirthOf(hist, m) >= 0
  {
    var past, e := Snoc(hist);
    SourcedSnoc(past, e, src);
    if !Unheard(Tables(past, src), m) {
      KnownWasBorn(past, src, m);
    }
  }

  /** An id that lives outside `n` was created outside `n`. */
  lemma BornAtHome(hist: seq<Event>, src: Identity, m: Id, k: string) returns (e: Event)
    requires Sourced(hist, src) && Home(Tables(hist, src), m, k)
    ensures e in hist && e.id == m && e.etype.Created? && e.ns == k
  {
    KnownWasBorn(hist, src, m);
    BirthIs(hist, m);
    WrittenAtHome(hist, BirthOf(hist, m), src);
    SourceIsConsistent(hist, src);
    e := hist[BirthOf(hist, m)];
  }

  lemma OutsideIsNewborn(hist: seq<Event>, src: Identity, n: string, ns: Option<string>, s: int, m: Id, k: string)
    requires Sourced(hist, src) && NothingOutsideBefore(hist, n, ns, s) && Home(Tables(hist, src), m, k) && Outside(k, n, ns)
    ensures m in Newborns(hist, s)
  {
    var e := BornAtHome(hist, src, m, k);
  }

  lemma NothingBeforeIsClosed(hist: seq<Event>, src: Identity, n: string, ns: Option<string>, s: int)
    requires Sourced(hist, src) && NothingOutsideBefore(hist, n, ns, s)
    ensures Closed(hist, n, ns, s)
  {
    forall e | e in hist && e.seqNo > s && Outside(e.ns, n, ns) && (e.etype.Updated? || e.etype.Deleted?)
      ensures e.id in Newborns(hist, s)
    {
      var i :| 0 <= i < |hist| && hist[i] == e;
      WrittenAtHome(hist, i, src);
      OutsideIsNewborn(hist, src, n, ns, s, e.id, e.ns);
    }
  }

  lemma AllBornArrives(db: DB, n: string, ns: Option<string>, born: set<Id>)
    requires forall m, k :: Home(db, m, k) && Outside(k, n, ns) ==> m in born
    ensures Arrived(db, n, ns, born) == Meant(db, n, ns)
  {
    forall m | m in db.rows && Outside(db.rows[m].ns, n, ns) ensures m in born { assert Home(db, m, db.rows[m].ns); }
    forall m | m in db.tombs && Outside(db.tombs[m].ns, n, ns) ensures m in born { assert Home(db, m, db.tombs[m].ns); }
    assert Arrived(db, n, ns, born).rows == Meant(db, n, ns).rows;
    assert Arrived(db, n, ns, born).tombs == Meant(db, n, ns).tombs;
  }

  /** If the source wrote nothing outside `n` before, all that was meant arrives. */
  lemma AllArrives(hist: seq<Event>, src: Identity, n: string, ns: Option<string>, s: int)
    requires Sourced(hist, src) && NothingOutsideBefore(hist, n, ns, s)
    ensures Arrived(Tables(hist, src), n, ns, Newborns(hist, s)) == Meant(Tables(hist, src), n, ns)
  {
    forall m, k | Home(Tables(hist, src), m, k) && Outside(k, n, ns) ensures m in Newborns(hist, s) {
      OutsideIsNewborn(hist, src, n, ns, s, m, k);
    }
    AllBornArrives(Tables(hist, src), n, ns, Newborns(hist, s));
  }

  /** A source creates an id once, before anything else it does to it. */
  lemma NoSecondCreate(hist: seq<Event>, i: nat, j: nat, src: Identity)
    requires Sourced(hist, src) && i < j < |hist| && Reconstructing(hist[i].etype)
    ensures !(hist[j].etype.Created? && hist[j].id == hist[i].id)
  {
    SourcedPrefix(hist, j, src);
    assert hist[..j][i] == hist[i];
    WrittenAtHome(hist[..j], i, src);
  }

  lemma NotNewborn(hist: seq<Event>, src: Identity, s: int, e: Event)
    requires Sourced(hist, src) && e in hist && e.seqNo <= s && Reconstructing(e.etype)
    ensures e.id !in Newborns(hist, s)
  {
    if e.id in Newborns(hist, s) {
      var f :| f in hist && f.etype.Created? && f.seqNo > s && f.id == e.id;
      var i :| 0 <= i < |hist| && hist[i] == e;
      var j :| 0 <= j < |hist| && hist[j] == f;
      SourcedIncreases(hist, src);
      NoSecondCreate(hist, i, j, src);
    }
  }

  /** If the source wrote outside `n` before, something that was meant is missing. */
  lemma SomethingIsMissing(hist: seq<Event>, src: Identity, n: string, ns: Option<string>, s: int, at: DB)
    requires Sourced(hist, src) && !NothingOutsideBefore(hist, n, ns, s)
    requires SameState(at, Arrived(Tables(hist, src), n, ns, Newborns(hist, s)))
    ensures !SameState(at, Meant(Tables(hist, src), n, ns))
  {
    var e :| e in hist && Outside(e.ns, n, ns) && Reconstructing(e.etype) && e.seqNo <= s;
    var i :| 0 <= i < |hist| && hist[i] == e;
    var db := Tables(hist, src);
    WrittenAtHome(hist, i, src);
    NotNewborn(hist, src, s, e);
    KeysOfState(at, Arrived(db, n, ns, Newborns(hist, s)));
    if SameState(at, Meant(db, n, ns)) {
      KeysOfState(at, Meant(db, n, ns));
      SourceIsConsistent(hist, src);
      MissingKey(db, n, ns, Newborns(hist, s), e.id, e.ns);
    }
  }

  lemma MissingKey(db: DB, n: string, ns: Option<string>, born: set<Id>, m: Id, k: string)
    requires Home(db, m, k) && Outside(k, n, ns) && m !in born
    ensures Meant(db, n, ns).rows.Keys != Arrived(db, n, ns, born).rows.Keys || Meant(db, n, ns).tombs.Keys != Arrived(db, n, ns, born).tombs.Keys
  {
    if m in db.rows && db.rows[m].ns == k {
      assert m in Meant(db, n, ns).rows.Keys && m !in Arrived(db, n, ns, born).rows.Keys;
    } else {
      assert m in Meant(db, n, ns).tombs.Keys && m !in Arrived(db, n, ns, born).tombs.Keys;
    }
  }

  /** A replay of a replica of namespace `n` with an accepted cursor of another scope succeeds and ends
      in the source's state of both scopes exactly if the source wrote nothing outside `n` before
      the cursor, what it wrote there afterwards is portable, and the cursor names its event types. */
  lemma CompleteExactlyWhen(r: Replica, w: World, c: Cursor, want: Option<string>, n: string)
    requires InScopeReplica(r, w, Some(n), |InScope(w.hist, Some(n), 0)|) && UniqueRows(r.db.rows) && WellFormed(c)
    requires CheckCursor(w.store.log, w.store.identity, c, want).None? && HasBase(r.saved, c)
    ensures var out := ReplayFrom(w.store, r, c, want, None);
            out.Ok? && SameState(out.value.db, Meant(Tables(w.hist, w.store.identity), n, c.ns)) <==>
            CursorCovers(w.hist, c) && PortableOutside(w.hist, n, c.ns, c.seqNo) && NothingOutsideBefore(w.hist, n, c.ns, c.seqNo)
  {
    var src, hist, out := w.store.identity, w.hist, ReplayFrom(w.store, r, c, want, None);
    ArrivesExactly(r, w, c, want, n);
    if NothingOutsideBefore(hist, n, c.ns, c.seqNo) {
      NothingBeforeIsClosed(hist, src, n, c.ns, c.seqNo);
      AllArrives(hist, src, n, c.ns, c.seqNo);
    } else if out.Ok? {
      SomethingIsMissing(hist, src, n, c.ns, c.seqNo, out.value.db);
    }
  }
}
