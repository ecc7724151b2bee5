/** Replaying in steps of bounded length, each from the cursor the one before returned. */
module Stepping {
  import opened Records
  import opened Execution
  import opened Idempotence
  import opened Composition
  import opened Resume
  import opened Retention
  import opened Sources
  import opened Replication
  import opened Database
  import opened ReplayRun
  import opened ReplayWrites

  /** What the events table guarantees of ids. */
  ghost predicate ProperIds(es: seq<Event>) {
    DistinctIds(es) && forall e <- es :: !Blank(e.eventId)
  }

  /** Steps from `first` against a target that was `before`. */
  datatype Walk = Walk(s: Store, before: Replica, first: Cursor, want: Option<string>)

  ghost function AllOf(w: Walk): seq<Event> {
    InScope(w.s.log.events, w.first.ns, w.first.seqNo)
  }

  /** The first cursor is accepted, and no guard stands in the way of a bounded replay. */
  ghost predicate Ready(w: Walk) {
    && WellFormed(w.first) && Increasing(w.s.log.events) && ProperIds(w.s.log.events)
    && UniqueRows(w.before.db.rows) && w.s.log.headSeq >= 0
    && CheckCursor(w.s.log, w.s.identity, w.first, w.want).None?
    && HasBase(w.before.saved, w.first) && BoundTo(w.before, w.s.identity) && !NeedsGuard(w.before)
  }

  /** `k` events are replayed: the target holds their outcome and the cursor stands behind them. */
  ghost predicate Stands(w: Walk, now: Replica, c: Cursor, k: nat)
    requires UniqueRows(w.before.db.rows)
  {
    var all := AllOf(w);
    && k <= |all| && c == Advance(w.first, all[..k])
    && Replay(all[..k], w.s.identity, w.first.types, w.before.db, w.first.seqNo) == Ok(now.db)
    && now.saved == (if k == 0 then w.before.saved else Some(c))
  }

  lemma StandsAtFirst(w: Walk)
    requires Ready(w)
    ensures Stands(w, w.before, w.first, 0)
  {
    assert AllOf(w)[..0] == [];
  }

  lemma AllIsProper(w: Walk)
    requires Ready(w)
    ensures Increasing(AllOf(w)) && DistinctIds(AllOf(w)) && Persistent(w.s.identity)
    ensures forall e <- AllOf(w) :: e in w.s.log.events && e.seqNo > w.first.seqNo
  {
    InScopeInOrder(w.s.log.events, w.first.ns, w.first.seqNo);
    InScopeDistinct(w.s.log.events, w.first.ns, w.first.seqNo);
  }

  /** A cursor behind a retained event of its scope is accepted if an earlier one was. */
  lemma LaterIsAccepted(l: Log, src: Identity, c: Cursor, want: Option<string>, e: Event)
    requires Increasing(l.events) && l.headSeq >= 0 && WellFormed(c) && CheckCursor(l, src, c, want).None?
    requires e in l.events && e.seqNo > c.seqNo && !Blank(e.eventId)
    ensures var c' := c.(seqNo := e.seqNo, anchor := e.eventId);
            WellFormed(c') && CheckCursor(l, src, c', want).None?
  {
    EventAtFinds(l.events, e.seqNo);
    var i :| 0 <= i < |l.events| && l.events[i] == e;
    assert EventAt(l.events, e.seqNo) == Some(e);
    assert e.seqNo <= l.events[|l.events| - 1].seqNo;
  }

  /** Wherever the walk stands, the next step is accepted. */
  lemma NextIsAccepted(w: Walk, now: Replica, c: Cursor, k: nat)
    requires Ready(w) && Stands(w, now, c, k)
    ensures WellFormed(c) && CheckCursor(w.s.log, w.s.identity, c, w.want).None?
    ensures HasBase(now.saved, c) && BoundTo(now, w.s.identity) && !NeedsGuard(now) && c.ns == w.first.ns && c.types == w.first.types
  {
    AllIsProper(w);
    AcceptedIsAddressed(w.s, w.first, w.want);
    if k > 0 {
      var e := AllOf(w)[k - 1];
      assert AllOf(w)[..k][k - 1] == e;
      LaterIsAccepted(w.s.log, w.s.identity, w.first, w.want, e);
    } else {
      assert AllOf(w)[..0] == [];
      assert now.db == w.before.db;
    }
  }

  /** Where a step of at most `max` events ends. */
  function StepEnd(k: nat, max: nat, n: nat): nat
    requires k <= n
  {
    if max < n - k then k + max else n
  }

  /** The window of the next step is the next stretch of all events. */
  lemma NextWindow(w: Walk, c: Cursor, k: nat, max: nat)
    requires Ready(w) && k <= |AllOf(w)| && c == Advance(w.first, AllOf(w)[..k])
    ensures var all := AllOf(w);
            InScope(w.s.log.events, c.ns, c.seqNo) == all[k..] &&
            Window(w.s.log.events, c.ns, c.seqNo, Some(max)) == all[k..StepEnd(k, max, |all|)]
  {
    NextPage(w.s.log.events, w.first.ns, w.first.seqNo, k, c.seqNo);
  }

  /** Going on from `k` events to `k'` leads to the outcome of the first `k'`. */
  lemma StretchReplays(w: Walk, now: Replica, c: Cursor, k: nat, k': nat)
    requires Ready(w) && Stands(w, now, c, k) && k <= k' <= |AllOf(w)|
    ensures UniqueRows(now.db.rows)
    ensures var all := AllOf(w);
            Replay(all[k..k'], w.s.identity, c.types, now.db, c.seqNo) ==
            Replay(all[..k'], w.s.identity, w.first.types, w.before.db, w.first.seqNo)
  {
    var all := AllOf(w);
    AllIsProper(w);
    assert all[..k'] == all[..k] + all[k..k'];
    DistinctPart(all, 0, k');
    ReplayComposes(all[..k], all[k..k'], w.s.identity, w.first.types, w.before.db, w.first.seqNo);
    assert c.seqNo == LastSeq(all[..k], w.first.seqNo);
  }

  lemma AdvanceTwice(c: Cursor, all: seq<Event>, k: nat, k': nat)
    requires k <= k' <= |all|
    ensures Advance(Advance(c, all[..k]), all[k..k']) == Advance(c, all[..k'])
  {
  }

  /** The next step: the outcome of the first `k'` events, or the error of the whole. */
  lemma StepIs(w: Walk, now: Replica, c: Cursor, k: nat, max: nat)
    requires Ready(w) && Stands(w, now, c, k) && max > 0
    ensures UniqueRows(now.db.rows)
    ensures var all := AllOf(w);
            var k' := StepEnd(k, max, |all|);
            ReplayFrom(w.s, now, c, w.want, Some(max)) ==
            match Replay(all[..k'], w.s.identity, w.first.types, w.before.db, w.first.seqNo)
            case Err(e) => Err(Execution(e))
            case Ok(db) => Ok(Replica(db, Some(SavedAfter(now.saved, c, all[k..k']))))
  {
    NextIsAccepted(w, now, c, k);
    NextWindow(w, c, k, max);
    StretchReplays(w, now, c, k, StepEnd(k, max, |AllOf(w)|));
  }

  /** All events are replayed: the tables and the checkpoint of one replay of all of them. */
  ghost predicate Done(w: Walk, now: Replica, c: Cursor)
    requires UniqueRows(w.before.db.rows)
  {
    var all := AllOf(w);
    && Replay(all, w.s.identity, w.first.types, w.before.db, w.first.seqNo) == Ok(now.db)
    && c == SavedAfter(w.before.saved, w.first, all) && now.saved == Some(c)
  }

  /** The checkpoint after a step from `k` to `k'`. */
  lemma SavedAfterStep(saved: Option<Cursor>, first: Cursor, all: seq<Event>, k: nat, k': nat)
    requires k <= k' <= |all| && (k < k' || k == 0)
    ensures var c := Advance(first, all[..k]);
            SavedAfter(if k == 0 then saved else Some(c), c, all[k..k']) ==
            if k' == 0 then SavedAfter(saved, first, []) else Advance(first, all[..k'])
  {
    AdvanceTwice(first, all, k, k');
  }

  /** What a successful step leaves. */
  lemma StepLeaves(w: Walk, now: Replica, c: Cursor, k: nat, max: nat, next: Replica)
    requires Ready(w) && Stands(w, now, c, k) && max > 0 && (k == 0 || k < |AllOf(w)|)
    requires UniqueRows(now.db.rows) && ReplayFrom(w.s, now, c, w.want, Some(max)) == Ok(next)
    ensures var all := AllOf(w);
            var k' := StepEnd(k, max, |all|);
            Replay(all[..k'], w.s.identity, w.first.types, w.before.db, w.first.seqNo) == Ok(next.db) &&
            next.saved == Some(if k' == 0 then SavedAfter(w.before.saved, w.first, []) else Advance(w.first, all[..k']))
  {
    var all := AllOf(w);
    StepIs(w, now, c, k, max);
    SavedAfterStep(w.before.saved, w.first, all, k, StepEnd(k, max, |all|));
  }

  /** After a step the target stands further on, or all is done. */
  lemma StepAdvances(w: Walk, now: Replica, c: Cursor, k: nat, max: nat, next: Replica)
    requires Ready(w) && Stands(w, now, c, k) && max > 0 && (k == 0 || k < |AllOf(w)|)
    requires UniqueRows(now.db.rows) && ReplayFrom(w.s, now, c, w.want, Some(max)) == Ok(next)
    ensures var k' := StepEnd(k, max, |AllOf(w)|);
            next.saved.Some? && (k' == |AllOf(w)| ==> Done(w, next, next.saved.value)) &&
            (k' < |AllOf(w)| ==> k < k' && Stands(w, next, next.saved.value, k'))
  {
    StepLeaves(w, now, c, k, max, next);
    WholePart(AllOf(w));
  }

  lemma WholePart(all: seq<Event>)
    ensures all[..|all|] == all
  {
  }

  /** What is in scope after the cursor: nothing if all is done, else what is not replayed yet. */
  lemma LeftInScope(w: Walk, now: Replica, c: Cursor, k: nat)
    requires Ready(w) && Stands(w, now, c, k)
    ensures |InScope(w.s.log.events, w.first.ns, c.seqNo)| == |AllOf(w)| - k
  {
    NextPage(w.s.log.events, w.first.ns, w.first.seqNo, k, c.seqNo);
  }

  lemma NothingLeft(w: Walk, now: Replica, c: Cursor)
    requires Ready(w) && Done(w, now, c)
    ensures InScope(w.s.log.events, w.first.ns, c.seqNo) == []
  {
    var all := AllOf(w);
    assert c.seqNo == Advance(w.first, all).seqNo;
    NextPage(w.s.log.events, w.first.ns, w.first.seqNo, |all|, c.seqNo);
  }

  /** The one unbounded replay. */
  lemma WholeIs(w: Walk)
    requires Ready(w)
    ensures ReplayFrom(w.s, w.before, w.first, w.want, None) ==
            match Replay(AllOf(w), w.s.identity, w.first.types, w.before.db, w.first.seqNo)
            case Err(e) => Err(Execution(e))
            case Ok(db) => Ok(Replica(db, Some(SavedAfter(w.before.saved, w.first, AllOf(w)))))
  {
  }

  /** An error of a step is the error of the one unbounded replay. */
  lemma StepFails(w: Walk, now: Replica, c: Cursor, k: nat, max: nat, e: ReplayError)
    requires Ready(w) && Stands(w, now, c, k) && max > 0
    requires UniqueRows(now.db.rows) && ReplayFrom(w.s, now, c, w.want, Some(max)) == Err(e)
    ensures ReplayFrom(w.s, w.before, w.first, w.want, None) == Err(e)
  {
    StepIs(w, now, c, k, max);
    PartFails(w, StepEnd(k, max, |AllOf(w)|));
    WholeIs(w);
  }

  lemma PartFails(w: Walk, k: nat)
    requires Ready(w) && k <= |AllOf(w)|
    requires Replay(AllOf(w)[..k], w.s.identity, w.first.types, w.before.db, w.first.seqNo).Err?
    ensures Replay(AllOf(w), w.s.identity, w.first.types, w.before.db, w.first.seqNo) ==
            Replay(AllOf(w)[..k], w.s.identity, w.first.types, w.before.db, w.first.seqNo)
  {
    var all := AllOf(w);
    AllIsProper(w);
    assert all == all[..k] + all[k..];
    ReplayComposes(all[..k], all[k..], w.s.identity, w.first.types, w.before.db, w.first.seqNo);
  }

  /** A walk that is not ready ends at its first step. */
  lemma UnreadyIsRefused(w: Walk, max: nat)
    requires WellFormed(w.first) && Increasing(w.s.log.events) && ProperIds(w.s.log.events)
    requires UniqueRows(w.before.db.rows) && w.s.log.headSeq >= 0 && !Ready(w)
    ensures ReplayFrom(w.s, w.before, w.first, w.want, Some(max)).Err?
  {
  }

  /** Where the loop is between two steps. */
  ghost predicate Between(w: Walk, now: Replica, c: Cursor, k: nat, completed: bool)
    requires UniqueRows(w.before.db.rows)
  {
    if !Ready(w) then now == w.before && c == w.first && !completed
    else if completed then Done(w, now, c)
    else Stands(w, now, c, k) && (k == 0 || k < |AllOf(w)|) && WellFormed(c) && WellFormedIf(now.saved) && c.ns == w.first.ns
  }

  lemma BetweenAtFirst(w: Walk)
    requires UniqueRows(w.before.db.rows) && WellFormed(w.first) && WellFormedIf(w.before.saved)
    ensures Between(w, w.before, w.first, 0, false)
  {
    if Ready(w) { StandsAtFirst(w); }
  }

  lemma BetweenSteps(w: Walk, now: Replica, c: Cursor, k: nat, max: nat, next: Replica, completed: bool) returns (k': nat)
    requires WellFormed(w.first) && Increasing(w.s.log.events) && ProperIds(w.s.log.events)
    requires UniqueRows(w.before.db.rows) && w.s.log.headSeq >= 0
    requires Between(w, now, c, k, false) && max > 0
    requires UniqueRows(now.db.rows) && ReplayFrom(w.s, now, c, w.want, Some(max)) == Ok(next) && next.saved.Some?
    requires completed <==> InScope(w.s.log.events, w.first.ns, next.saved.value.seqNo) == []
    ensures Ready(w) && Between(w, next, next.saved.value, k', completed)
    ensures completed || |InScope(w.s.log.events, w.first.ns, next.saved.value.seqNo)| < |InScope(w.s.log.events, w.first.ns, c.seqNo)|
  {
    if !Ready(w) { UnreadyIsRefused(w, max); }
    StepAdvances(w, now, c, k, max, next);
    k' := StepEnd(k, max, |AllOf(w)|);
    LeftInScope(w, now, c, k);
    if k' < |AllOf(w)| {
      LeftInScope(w, next, next.saved.value, k');
      NextIsAccepted(w, next, next.saved.value, k');
    } else {
      NothingLeft(w, next, next.saved.value);
    }
  }

  /** The outcome of stepping: that of one unbounded replay, if bounded ones are accepted at all. An
      error leaves the target after the last complete step. */
  ghost predicate Walked(w: Walk, now: Replica, k: nat, max: nat, r: Result<Cursor, ReplayError>)
    requires UniqueRows(w.before.db.rows)
  {
    if Ready(w) then
      match ReplayFrom(w.s, w.before, w.first, w.want, None)
      case Ok(after) => r.Ok? && now == after && after.saved == Some(r.value)
      case Err(e) =>
        r == Err(e) && k <= |AllOf(w)| &&
        Replay(AllOf(w)[..k], w.s.identity, w.first.types, w.before.db, w.first.seqNo) == Ok(now.db)
    else r.Err? && now == w.before && ReplayFrom(w.s, w.before, w.first, w.want, Some(max)) == Err(r.error)
  }

  lemma WalkFails(w: Walk, now: Replica, c: Cursor, k: nat, max: nat, e: ReplayError)
    requires WellFormed(w.first) && UniqueRows(w.before.db.rows)
    requires Between(w, now, c, k, false) && max > 0
    requires UniqueRows(now.db.rows) && ReplayFrom(w.s, now, c, w.want, Some(max)) == Err(e)
    ensures Walked(w, now, k, max, Err(e))
  {
    if Ready(w) { StepFails(w, now, c, k, max, e); }
  }

  lemma WalkEnds(w: Walk, now: Replica, c: Cursor, k: nat, max: nat)
    requires WellFormed(w.first) && UniqueRows(w.before.db.rows) && Ready(w) && Between(w, now, c, k, true)
    ensures Walked(w, now, k, max, Ok(c))
  {
    WholeIs(w);
  }

  /** One step of the walk. */
  method TakeStep(source: MemoryDB, target: MemoryDB, c: Cursor, want: Option<string>, max: nat, ghost w: Walk, ghost k: nat)
      returns (r: Result<Outcome, ReplayError>, ghost k': nat)
    requires source != target && source.Valid() && target.Valid() && max > 0
    requires BoundsOf(target.EventLog()).headSeq == 0 && source.lastHeadSeq >= 0 && ProperIds(source.events)
    requires w.s == source.Value() && w.want == want && WellFormed(w.first) && WellFormedIf(w.before.saved) && UniqueRows(w.before.db.rows)
    requires Between(w, Replica(target.Data(), target.saved), c, k, false)
    modifies target
    ensures target.Valid() && target.EventLog() == old(target.EventLog())
    ensures var now := Replica(target.Data(), target.saved);
            if r.Err? then k' == k && Walked(w, now, k, max, Err(r.error))
            else
              Between(w, now, r.value.cursor, k', r.value.completed) && Ready(w) &&
              (r.value.completed ||
               |InScope(source.events, w.first.ns, r.value.cursor.seqNo)| < |InScope(source.events, w.first.ns, c.seqNo)|)
  {
    ghost var now := Replica(target.Data(), target.saved);
    r := ReplayWithCursor(source, target, Some(c), want, Some(max));
    k' := k;
    if r.Err? {
      WalkFails(w, now, c, k, max, r.error);
    } else {
      k' := BetweenSteps(w, now, c, k, max, Replica(target.Data(), target.saved), r.value.completed);
    }
  }

  /** Replay step by step until nothing is left: it ends, with the tables, the checkpoint or the error
      of the one unbounded replay. */
  method ReplayInSteps(source: MemoryDB, target: MemoryDB, first: Cursor, want: Option<string>, max: nat)
      returns (r: Result<Cursor, ReplayError>, ghost k: nat)
    requires source != target && source.Valid() && target.Valid() && WellFormed(first) && WellFormedIf(target.saved) && max > 0
    requires BoundsOf(target.EventLog()).headSeq == 0 && source.lastHeadSeq >= 0 && ProperIds(source.events)
    modifies target
    ensures Walked(Walk(source.Value(), Replica(old(target.Data()), old(target.saved)), first, want),
                   Replica(target.Data(), target.saved), k, max, r)
  {
    ghost var w := Walk(source.Value(), Replica(target.Data(), target.saved), first, want);
    var c, completed := first, false;
    k := 0;
    BetweenAtFirst(w);
    while !completed
      invariant target.Valid() && target.EventLog() == old(target.EventLog())
      invariant Between(w, Replica(target.Data(), target.saved), c, k, completed)
      invariant completed ==> Ready(w)
      decreases !completed, |InScope(source.events, first.ns, c.seqNo)|
    {
      var step;
      step, k := TakeStep(source, target, c, want, max, w, k);
      if step.Err? {
        return Err(step.error), k;
      }
      c, completed := step.value.cursor, step.value.completed;
    }
    WalkEnds(w, Replica(target.Data(), target.saved), c, k, max);
    r := Ok(c);
  }
}
