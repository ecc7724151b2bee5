/** A source and a replica acting in any order, over every run. */
module Systems {
  import opened Records
  import opened Execution
  import opened Idempotence
  import opened Composition
  import opened History
  import opened Retention
  import opened Sources
  import opened Replication

  /** The source makes a call, or the replica replays with a cursor of any scope and event types. */
  datatype Act = SourceAct(op: Op) | ReplayAct(c: Cursor, want: Option<string>, max: Option<nat>)

  datatype System = System(world: World, replica: Replica)

  /** A replay that is refused leaves the replica. */
  ghost function Perform(s: System, a: Act): System {
    match a
    case SourceAct(op) => s.(world := Step(s.world, op))
    case ReplayAct(c, want, max) =>
      if WellFormed(c) && UniqueRows(s.replica.db.rows) && ReplayFrom(s.world.store, s.replica, c, want, max).Ok?
      then s.(replica := ReplayFrom(s.world.store, s.replica, c, want, max).value) else s
  }

  ghost function RunSystem(identity: Identity, acts: seq<Act>): System {
    if acts == [] then System(World(NewStore(identity), []), NEW_REPLICA)
    else Perform(RunSystem(identity, acts[..|acts| - 1]), acts[|acts| - 1])
  }

  // ---------- any cursors ----------

  /** What every state of the system satisfies, whatever the cursors: the source is faithful to its
      history, no id of the replica is live and tombstoned, the unique index holds, and all that
      the replica has comes from this source. */
  ghost predicate Safe(s: System) {
    && Good(s.world) && Persistent(s.world.store.identity)
    && UniqueRows(s.replica.db.rows) && s.replica.db.rows.Keys !! s.replica.db.tombs.Keys
    && Own(s.replica, s.world.store.identity)
  }

  lemma ReplayIsSafe(s: Store, r: Replica, c: Cursor, want: Option<string>, max: Option<nat>)
    requires Persistent(s.identity) && UniqueRows(r.db.rows) && Own(r, s.identity)
    requires ReplayFrom(s, r, c, want, max).Ok?
    ensures var r' := ReplayFrom(s, r, c, want, max).value;
            KeepsBuried(r.db, r'.db) && UniqueRows(r'.db.rows) && Own(r', s.identity)
  {
    OwnIsNotGuarded(s, r, c, want, max);
    AcceptedIsAddressed(s, c, want);
    EagerViewIsCoherent(r.db, c.seqNo);
    ReplayKeepsBuried(Window(s.log.events, c.ns, c.seqNo, max), s.identity, c.types, EagerView(r.db, c.seqNo), r.db);
  }

  lemma PerformIsSafe(s: System, a: Act)
    requires Safe(s)
    ensures Safe(Perform(s, a)) && KeepsBuried(s.replica.db, Perform(s, a).replica.db)
    ensures Perform(s, a).world.store.identity == s.world.store.identity
  {
    match a
    case SourceAct(op) =>
      StepIsGood(s.world, op);
      StepKeepsIdentity(s.world, op);
    case ReplayAct(c, want, max) =>
      if ReplayFrom(s.world.store, s.replica, c, want, max).Ok? { ReplayIsSafe(s.world.store, s.replica, c, want, max); }
  }

  /** In every reachable state, whatever the source wrote, trimmed and compacted and whatever cursors
      the replica replayed with, of any scope, event types and length: no id of the replica is both
      live and tombstoned, at most one live row holds each namespace and non-empty hash, and the
      guards against foreign records never stop the replica. */
  lemma {:induction false} EverySystemRunIsSafe(identity: Identity, acts: seq<Act>)
    requires Persistent(identity)
    ensures var s := RunSystem(identity, acts);
            Safe(s) && s.world.store.identity == identity && !NeedsGuard(s.replica) && BoundTo(s.replica, identity)
  {
    if acts == [] {
      NewStoreIsGood(identity);
    } else {
      EverySystemRunIsSafe(identity, acts[..|acts| - 1]);
      PerformIsSafe(RunSystem(identity, acts[..|acts| - 1]), acts[|acts| - 1]);
    }
  }

  /** A record that a replica has tombstoned never comes back there, in any longer run with any
      cursors, and its tombstone stays as it is. */
  lemma {:induction false} ReplicaNeverResurrects(identity: Identity, acts: seq<Act>, more: seq<Act>, m: Id)
    requires Persistent(identity) && m in RunSystem(identity, acts).replica.db.tombs
    ensures var db := RunSystem(identity, acts + more).replica.db;
            m in db.tombs && db.tombs[m] == RunSystem(identity, acts).replica.db.tombs[m] && m !in db.rows
  {
    EverySystemRunIsSafe(identity, acts + more);
    if more == [] {
      assert acts + more == acts;
    } else {
      var n := |more| - 1;
      assert (acts + more)[..|acts + more| - 1] == acts + more[..n];
      ReplicaNeverResurrects(identity, acts, more[..n], m);
      EverySystemRunIsSafe(identity, acts + more[..n]);
      PerformIsSafe(RunSystem(identity, acts + more[..n]), more[n]);
    }
  }

  // ---------- cursors of one scope ----------

  /** What the source does meanwhile leaves a replica valid. */
  lemma SourceMoves(r: Replica, w: World, ns: Option<string>, t: nat, op: Op)
    requires InScopeReplica(r, w, ns, t)
    ensures InScopeReplica(r, Step(w, op), ns, t)
  {
    StepIsGood(w, op);
    StepKeepsIdentity(w, op);
    var w' := Step(w, op);
    if w'.hist != w.hist {
      var e := w'.hist[|w.hist|];
      assert w'.hist == w.hist + [e];
      MoreHistory(r, w.hist, e, w.store.identity, ns, t);
    }
  }

  lemma MoreHistory(r: Replica, hist: seq<Event>, e: Event, src: Identity, ns: Option<string>, t: nat)
    requires Holding(r, hist, src, ns, t) && Sourced(hist + [e], src)
    requires r.saved.Some? ==> r.saved.value.seqNo <= LastSeq(hist, 0)
    ensures Holding(r, hist + [e], src, ns, t) && LastSeq(hist, 0) <= LastSeq(hist + [e], 0)
  {
    var es, es' := InScope(hist, ns, 0), InScope(hist + [e], ns, 0);
    assert (hist + [e])[..|hist|] == hist;
    assert es' == es || es' == es + [e];
    assert es'[..t] == es[..t];
    if es' == es + [e] && r.saved.Some? { assert es'[..|es|] == es; }
  }

  /** The act replays nothing outside scope `ns`. */
  predicate Fits(a: Act, ns: Option<string>) {
    a.ReplayAct? ==> a.c.ns == ns
  }

  ghost predicate SystemHolds(s: System, ns: Option<string>, t: nat) {
    InScopeReplica(s.replica, s.world, ns, t)
  }

  lemma PerformHolds(s: System, a: Act, ns: Option<string>, t: nat) returns (t': nat)
    requires SystemHolds(s, ns, t) && Fits(a, ns)
    ensures t <= t' && SystemHolds(Perform(s, a), ns, t')
  {
    t' := t;
    match a
    case SourceAct(op) => SourceMoves(s.replica, s.world, ns, t, op);
    case ReplayAct(c, want, max) =>
      if WellFormed(c) && UniqueRows(s.replica.db.rows) && ReplayFrom(s.world.store, s.replica, c, want, max).Ok? {
        t' := ReplayExtends(s.replica, s.world, c, want, max, t);
      }
  }

  /** In every reachable state of a system whose replays are all of one scope, the replica holds a
      prefix of that scope's history. */
  lemma {:induction false} EverySystemRunHolds(identity: Identity, ns: Option<string>, acts: seq<Act>) returns (t: nat)
    requires Persistent(identity) && forall a <- acts :: Fits(a, ns)
    ensures var s := RunSystem(identity, acts); InScopeReplica(s.replica, s.world, ns, t)
  {
    if acts == [] {
      NewStoreIsGood(identity);
      var none: seq<Event> := [];
      assert none[..0] == none;
      EagerViewIsCoherent(EMPTY_DB, 0);
      t := 0;
    } else {
      t := EverySystemRunHolds(identity, ns, acts[..|acts| - 1]);
      t := PerformHolds(RunSystem(identity, acts[..|acts| - 1]), acts[|acts| - 1], ns, t);
    }
  }

  /** A replica without a log of its own compacts nothing: its trim watermark is zero. */
  lemma ReplicaCannotCompact(db: DB, id: Identity, through: nat, acked: Option<int>, ns: Option<string>, strict: bool)
    requires forall m <- db.tombs :: db.tombs[m].seqNo > 0
    ensures var s := Store(db, EMPTY_LOG, id);
            Compact(s, through, acked, ns, strict) == Ok(s) || Compact(s, through, acked, ns, strict) in {Err(Unacknowledged), Err(NotTrimmed)}
  {
    var s := Store(db, EMPTY_LOG, id);
    if Compact(s, through, acked, ns, strict).Ok? {
      assert Through(Listed(db.tombs, ns), Horizon(0, through, acked, strict)) == {};
      assert s.db.tombs - {} == s.db.tombs;
    }
  }
}
