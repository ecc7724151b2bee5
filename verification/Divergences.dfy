/** Where the code falls short of its documented promises, each with a concrete input and, where
    one exists, the exact condition. */
module Divergences {
  import opened Records
  import opened Planner
  import opened Execution
  import opened Idempotence
  import opened Composition
  import opened Resume
  import opened History
  import opened Retention
  import opened Sources
  import opened Replication
  import opened CrossScope
  import opened CrossReplay

  const SOURCE := Identity("mount", "replica", "history")

  function Fact(identifier: string, ns: string, hash: string): Rec {
    Rec(identifier, ns, hash, "fp", true, true, hash, "")
  }

  lemma OneIsSourced(e: Event)
    requires Emitted(EMPTY_DB, e, SOURCE) && e.seqNo > 0 && e.eventId != ""
    ensures Sourced([e], SOURCE) && Tables([e], SOURCE) == Write(EMPTY_DB, e, SOURCE)
  {
    var none: seq<Event> := [];
    assert [e][..0] == none;
    assert Sourced(none, SOURCE);
  }

  /** A record without an identifier validates and is replicated, but once it is deleted the log
      no longer replays anywhere. */
  lemma EmptyIdentifierBlocksReplay() returns (hist: seq<Event>)
    ensures Sourced(hist, SOURCE) && |hist| == 2
    ensures hist[0].etype.Created? && hist[0].rec.identifier == "" && hist[0].rec.portable && hist[1].etype.Deleted?
    ensures Replay(hist[..1], SOURCE, ALL_RECONSTRUCTING, EMPTY_DB, 0).Ok?
    ensures Replay(hist, SOURCE, ALL_RECONSTRUCTING, EMPTY_DB, 0).Err?
  {
    var r := Fact("", "", "hash");
    var e := CreatedEvent("m", r, SOURCE, Stamp(1, "e1", "now"));
    var f := DeletedEvent("m", r, SOURCE, Stamp(2, "e2", "now"), "now", "");
    assert e.id[0] == 'm';
    OneIsSourced(e);
    SnocSourced([e], f, SOURCE);
    hist := [e] + [f];
    assert hist[..1] == [e];
    assert AllPortable([e]) && f in hist && !Portable(f);
    ReplayConverges([e], SOURCE);
    ReplayConverges(hist, SOURCE);
  }

  /** An update that changes neither hash nor fingerprint, such as one of the parent or related
      memories alone, never reaches a replica: replaying it changes no table at all. Any other
      update arrives as the exact row. */
  lemma SilentUpdatesNeverArrive(hist: seq<Event>, e: Event, src: Identity)
    requires Persistent(src) && Sourced(hist + [e], src) && AllPortable(hist) && Portable(e) && e.etype.Updated?
    ensures var before := Tables(hist, src).rows;
            e.id in before &&
            var at, now := Replay(hist, src, ALL_RECONSTRUCTING, EMPTY_DB, 0), Replay(hist + [e], src, ALL_RECONSTRUCTING, EMPTY_DB, 0);
            at.Ok? && now.Ok? &&
            if Holds(LiveOf(before[e.id]), e) then now == at else e.id in now.value.rows && now.value.rows[e.id] == e.rec
  {
    OneMoreWrite(hist, e, src);
    UpdateArrives(Replay(hist, src, ALL_RECONSTRUCTING, EMPTY_DB, 0).value, Tables(hist, src), e, src);
  }

  lemma UpdateArrives(db: DB, mine: DB, e: Event, src: Identity)
    requires Emitted(mine, e, src) && SameState(db, mine) && e.etype.Updated?
    ensures e.id in mine.rows
    ensures var db' := ApplyOne(db, e, Expected(db, e), src);
            if Holds(LiveOf(mine.rows[e.id]), e) then db' == db else e.id in db'.rows && db'.rows[e.id] == e.rec
  {
    assert LiveRows(db.rows)[e.id] == LiveRows(mine.rows)[e.id];
    assert e.id in db.rows && LiveOf(db.rows[e.id]) == LiveOf(mine.rows[e.id]);
  }

  /** A plan of two events, spelled out. */
  lemma PlanTwo(f: Event, e: Event, v: View, d: Disposition, src: Identity)
    requires Disposed(f, src, ALL_RECONSTRUCTING, v) == Ok(d)
    ensures PlanAll([f, e], src, ALL_RECONSTRUCTING, v) ==
            match Disposed(e, src, ALL_RECONSTRUCTING, Effect(v, f, d, src))
            case Err(r) => Raised(r)
            case Ok(b) => Planned([d, b], Effect(Effect(v, f, d, src), e, b, src))
  {
    var none: seq<Event> := [];
    assert [f, e][..1] == [f] && [f][..0] == none;
    assert PlanAll([f], src, ALL_RECONSTRUCTING, v) == Planned([] + [d], Effect(v, f, d, src));
  }

  lemma ApplyTwo(f: Event, e: Event, db: DB, d: Disposition, b: Disposition, src: Identity)
    ensures ApplyAll(db, [f, e], [d, b], src) == ApplyOne(ApplyOne(db, f, d, src), e, b, src)
  {
    var none: seq<Event> := [];
    assert [f, e][..1] == [f] && [d, b][..1] == [d];
    assert [f][..0] == none && [d][..0] == [];
    assert ApplyAll(db, [f], [d], src) == ApplyOne(db, f, d, src);
  }

  const WHO := Rec("who", "", "hash", "fp", true, true, "hash", "")
  const MARKED := DB(map[], map[], map["m" := Mark("", "", "", 0, "", "")])
  const GONE := DeletedEvent("m", WHO, SOURCE, Stamp(1, "e1", "now"), "now", "")
  const BACK := CreatedEvent("m", WHO, SOURCE, Stamp(2, "e2", "now"))

  lemma ChecksPass()
    ensures CheckEvent(GONE, 0, SOURCE, ALL_RECONSTRUCTING).None? && CheckEvent(BACK, 1, SOURCE, ALL_RECONSTRUCTING).None?
  {
    assert GONE.id[0] == 'm' && BACK.id[0] == 'm' && DeletedAt(GONE)[0] == 'n';
  }

  lemma FirstTime()
    ensures UniqueRows(MARKED.rows)
    ensures Replay([GONE, BACK], SOURCE, ALL_RECONSTRUCTING, MARKED, 0) ==
            Ok(ApplyOne(ApplyOne(MARKED, GONE, SkipDeduped, SOURCE), BACK, ApplyCreate, SOURCE))
  {
    ChecksPass();
    var v := EagerView(MARKED, 0);
    assert Disposed(GONE, SOURCE, ALL_RECONSTRUCTING, v) == Ok(SkipDeduped);
    PlanTwo(GONE, BACK, v, SkipDeduped, SOURCE);
    assert v.owner == map[];
    assert Disposed(BACK, SOURCE, ALL_RECONSTRUCTING, v.(prev := 1)) == Ok(ApplyCreate);
    ApplyTwo(GONE, BACK, MARKED, SkipDeduped, ApplyCreate, SOURCE);
  }

  lemma SecondTime(after: DB)
    requires after.rows == map["m" := WHO] && after.tombs == map[]
    ensures UniqueRows(after.rows)
    ensures Replay([GONE, BACK], SOURCE, ALL_RECONSTRUCTING, after, 0) == Err(Resurrection)
  {
    ChecksPass();
    var v := EagerView(after, 0);
    assert v.live["m"] == LiveOf(WHO);
    assert Disposed(GONE, SOURCE, ALL_RECONSTRUCTING, v) == Ok(ApplyDelete);
    PlanTwo(GONE, BACK, v, ApplyDelete, SOURCE);
  }

  /** A watermark left by a legacy replay makes a range unrepeatable: its delete is skipped the
      first time and takes the record created after it the second time. */
  lemma LegacyMarkBreaksIdempotence() returns (db: DB, es: seq<Event>)
    ensures UniqueRows(db.rows) && !NoLegacyMarks(db.marks) && |es| == 2
    ensures Replay(es, SOURCE, ALL_RECONSTRUCTING, db, 0).Ok?
    ensures var after := Replay(es, SOURCE, ALL_RECONSTRUCTING, db, 0).value;
            UniqueRows(after.rows) && Replay(es, SOURCE, ALL_RECONSTRUCTING, after, 0) == Err(Resurrection)
  {
    db, es := MARKED, [GONE, BACK];
    assert "m" in db.marks;
    FirstTime();
    SecondTime(Replay(es, SOURCE, ALL_RECONSTRUCTING, db, 0).value);
  }

  // ---------- cursors of another scope ----------

  const ELSEWHERE := CreatedEvent("m", Fact("x", "B", "h"), SOURCE, Stamp(1, "e1", "now"))
  const HERE := CreatedEvent("k", Fact("y", "A", "h"), SOURCE, Stamp(2, "e2", "now"))

  lemma FirstLogged() returns (w: World)
    ensures Good(w) && w == LogIn(World(NewStore(SOURCE), []), ELSEWHERE)
  {
    NewStoreIsGood(SOURCE);
    assert ELSEWHERE.id[0] == 'm';
    LoggedIsFaithful(NewStore(SOURCE), [], ELSEWHERE);
    w := LogIn(World(NewStore(SOURCE), []), ELSEWHERE);
  }

  /** A source with one record in namespace B and then one in A, and a replica of namespace A
      that has replayed it all. */
  lemma SecondLogged() returns (w: World)
    ensures Good(w) && w.hist == [ELSEWHERE, HERE] && w.store.log.events == w.hist && w.store.identity == SOURCE
    ensures w.store.db.rows == map["m" := ELSEWHERE.rec, "k" := HERE.rec] && w.store.log.compacted == w.store.log.trimmed == 0
  {
    var w1 := FirstLogged();
    assert w1.hist == [ELSEWHERE] && HERE.id[0] == 'k';
    OneIsSourced(ELSEWHERE);
    assert IdsOf(w1.hist) == {"e1"};
    assert Tables(w1.hist, SOURCE).rows == map["m" := ELSEWHERE.rec];
    LoggedIsFaithful(w1.store, w1.hist, HERE);
    w := LogIn(w1, HERE);
  }

  lemma HereReplays() returns (db: DB)
    requires Sourced([HERE], SOURCE)
    ensures Replay([HERE], SOURCE, ALL_RECONSTRUCTING, EMPTY_DB, 0) == Ok(db) && UniqueRows(db.rows)
  {
    assert AllPortable([HERE]);
    ReplayConverges([HERE], SOURCE);
    ReplayKeepsUnique([HERE], SOURCE, ALL_RECONSTRUCTING, EMPTY_DB, 0);
    db := Replay([HERE], SOURCE, ALL_RECONSTRUCTING, EMPTY_DB, 0).value;
  }

  lemma HoldsAll(r: Replica, hist: seq<Event>, src: Identity, ns: Option<string>)
    requires Replay(InScope(hist, ns, 0), src, ALL_RECONSTRUCTING, EMPTY_DB, 0) == Ok(r.db) && r.saved.Some?
    ensures Holding(r, hist, src, ns, |InScope(hist, ns, 0)|)
  {
    assert InScope(hist, ns, 0)[..|InScope(hist, ns, 0)|] == InScope(hist, ns, 0);
  }

  lemma ReplicaOfA(w: World) returns (r: Replica)
    requires Good(w) && w.hist == [ELSEWHERE, HERE] && w.store.identity == SOURCE
    ensures InScopeReplica(r, w, Some("A"), 1) && UniqueRows(r.db.rows) && |InScope(w.hist, Some("A"), 0)| == 1
    ensures r.saved == Some(Cursor(SOURCE, 2, "e2", Some("A"), ALL_RECONSTRUCTING))
  {
    OnlyHere(w.hist);
    ScopeIsSourced(w.hist, SOURCE, "A");
    var db := HereReplays();
    r := Replica(db, Some(Cursor(SOURCE, 2, "e2", Some("A"), ALL_RECONSTRUCTING)));
    HoldsAll(r, w.hist, SOURCE, Some("A"));
  }

  lemma CursorAtFirst(w: World) returns (c: Cursor)
    requires w.store.log.events == [ELSEWHERE, HERE] && w.store.identity == SOURCE
    requires w.store.log.compacted == w.store.log.trimmed == 0
    ensures c == Cursor(SOURCE, 1, "e1", None, ALL_RECONSTRUCTING) && WellFormed(c)
    ensures CheckCursor(w.store.log, SOURCE, c, None).None?
  {
    c := Cursor(SOURCE, 1, "e1", None, ALL_RECONSTRUCTING);
    assert c.anchor[0] == 'e';
    assert EventAt(w.store.log.events, 1) == Some(ELSEWHERE);
  }

  /** Replays are accepted across scopes. A source has one record in namespace B and then one in A, and
      a replica of namespace A has replayed it all. The replica then accepts the full-scope cursor
      at the first event, and record `m` of namespace B, live at the source, stays missing. */
  lemma PartialCloneExample() returns (w: World, r: Replica, c: Cursor)
    ensures Good(w) && InScopeReplica(r, w, Some("A"), 1) && UniqueRows(r.db.rows)
    ensures c.ns == None && CheckCursor(w.store.log, SOURCE, c, None).None? && w.store.identity == SOURCE
    ensures var out := ReplayFrom(w.store, r, c, None, None);
            out.Ok? && out.value.saved.Some? && out.value.saved.value.ns == None &&
            "m" in w.store.db.rows && "m" !in out.value.db.rows
  {
    w := SecondLogged();
    r := ReplicaOfA(w);
    c := CursorAtFirst(w);
    ArrivesExactly(r, w, c, None, "A");
    NothingToDo(w.hist, c);
    var out := ReplayFrom(w.store, r, c, None, None).value;
    KeysOfState(out.db, Arrived(Tables(w.hist, SOURCE), "A", None, Newborns(w.hist, 1)));
    SavedScope(w.store, r, c);
  }

  /** After the first event there is nothing outside namespace A. */
  lemma NothingToDo(hist: seq<Event>, c: Cursor)
    requires hist == [ELSEWHERE, HERE] && c == Cursor(SOURCE, 1, "e1", None, ALL_RECONSTRUCTING)
    ensures CursorCovers(hist, c) && PortableOutside(hist, "A", None, 1) && Closed(hist, "A", None, 1)
    ensures "m" !in Newborns(hist, 1)
  {
    InScopeIsAfter(hist, None, 1);
  }

  lemma SavedScope(s: Store, r: Replica, c: Cursor)
    requires UniqueRows(r.db.rows) && ReplayFrom(s, r, c, None, None).Ok? && r.saved.Some? && r.saved.value.ns != c.ns
    ensures ReplayFrom(s, r, c, None, None).value.saved.Some? && ReplayFrom(s, r, c, None, None).value.saved.value.ns == c.ns
  {
  }

  lemma OnlyHere(hist: seq<Event>)
    requires hist == [ELSEWHERE, HERE]
    ensures InScope(hist, Some("A"), 0) == [HERE] && AllPortable([HERE])
  {
    assert hist[..1] == [ELSEWHERE];
    var none: seq<Event> := [];
    assert [ELSEWHERE][..0] == none;
    assert InScope([ELSEWHERE], Some("A"), 0) == none;
  }
}
