/** The store object: its tables, its log and meta rows, and the methods that change them. */
module Database {
  import opened Records
  import opened Execution
  import opened Idempotence
  import opened History
  import opened Retention
  import opened Sources

  /** INSERT OR IGNORE for a batch, in order. */
  function InsertAll(rows: map<Id, Rec>, batch: seq<(Id, Rec)>): map<Id, Rec> {
    if batch == [] then rows
    else
      var n := |batch| - 1;
      InsertIgnore(InsertAll(rows, batch[..n]), batch[n].0, batch[n].1)
  }

  /** How many rows of the batch are inserted. */
  function Inserted(rows: map<Id, Rec>, batch: seq<(Id, Rec)>): nat {
    if batch == [] then 0
    else
      var n := |batch| - 1;
      Inserted(rows, batch[..n]) + if Collides(InsertAll(rows, batch[..n]), batch[n].0, batch[n].1) then 0 else 1
  }

  lemma InsertIgnoreKeepsUnique(rows: map<Id, Rec>, id: Id, r: Rec)
    requires UniqueRows(rows)
    ensures UniqueRows(InsertIgnore(rows, id, r))
  {
  }

  /** The part of a table with the given keys. */
  function Pick<V>(m: map<Id, V>, ids: set<Id>): map<Id, V> {
    map k | k in m && k in ids :: m[k]
  }

  function Sharing(rows: map<Id, Rec>, pairs: set<Pair>): map<Id, Rec> {
    map k | k in rows && rows[k].chash != "" && (rows[k].ns, rows[k].chash) in pairs :: rows[k]
  }

  /** The log entries after `maxRow` is the last event to go from a log that ends with `head`. */
  function Noted(l: Log, maxRow: Event, head: Event): Log {
    var t := l.(trimmed := if maxRow.seqNo > l.trimmed then maxRow.seqNo else l.trimmed);
    if head.seqNo >= l.headSeq then t.(headSeq := head.seqNo, headId := head.eventId) else t
  }

  lemma TrimNotes(l: Log, k: nat)
    requires k <= |l.events|
    ensures Trim(l, l.events[k..]) ==
            (if k > 0 then Noted(l, l.events[k - 1], l.events[|l.events| - 1]) else l).(events := l.events[k..])
  {
  }

  lemma SuffixIncreases(es: seq<Event>, k: nat)
    requires Increasing(es) && k <= |es|
    ensures Increasing(es[k..]) && LastSeq(es[k..], 0) <= LastSeq(es, 0)
  {
  }

  /** An UPDATE changes its row, finds none, or breaks the unique index. */
  datatype Replaced = RowReplaced | NoRow | IntegrityError

  class MemoryDB {
    const identity: Identity
    var rows: map<Id, Rec>
    var tombs: map<Id, Tomb>
    var marks: map<Id, Mark>
    var events: seq<Event>
    var lastSeq: int
    var trimmedThrough: int
    var lastHeadSeq: int
    var lastHeadId: string
    var compactedThrough: int
    var saved: Option<Cursor>

    ghost function Data(): DB
      reads this
    {
      DB(rows, tombs, marks)
    }

    ghost function EventLog(): Log
      reads this
    {
      Log(events, lastSeq, trimmedThrough, lastHeadSeq, lastHeadId, compactedThrough)
    }

    ghost function Value(): Store
      reads this
    {
      Store(Data(), EventLog(), identity)
    }

    /** The unique index on rows, and the primary key order of the events table. */
    ghost predicate Valid()
      reads this
    {
      UniqueRows(rows) && Increasing(events) && LastSeq(events, 0) <= lastSeq
    }

    constructor (id: Identity)
      ensures Valid() && Value() == NewStore(id) && saved == None
    {
      identity := id;
      rows, tombs, marks := map[], map[], map[];
      events, lastSeq, trimmedThrough, lastHeadSeq, lastHeadId, compactedThrough := [], 0, 0, 0, "", 0;
      saved := None;
    }

    method InsertManyIgnore(batch: seq<(Id, Rec)>) returns (inserted: nat)
      requires UniqueRows(rows)
      modifies this`rows
      ensures rows == InsertAll(old(rows), batch) && inserted == Inserted(old(rows), batch) && UniqueRows(rows)
    {
      inserted := 0;
      for i := 0 to |batch|
        invariant rows == InsertAll(old(rows), batch[..i]) && inserted == Inserted(old(rows), batch[..i])
        invariant UniqueRows(rows)
      {
        var (id, r) := batch[i];
        assert batch[..i + 1][..i] == batch[..i];
        InsertIgnoreKeepsUnique(rows, id, r);
        if !Collides(rows, id, r) {
          rows := rows[id := r];
          inserted := inserted + 1;
        }
      }
      assert batch[..|batch|] == batch;
    }

    method ReplaceMemoryRecord(id: Id, r: Rec) returns (res: Replaced)
      requires UniqueRows(rows)
      modifies this`rows
      ensures UniqueRows(rows)
      ensures res.NoRow? <==> id !in old(rows)
      ensures res.IntegrityError? <==>
                id in old(rows) && r.chash != "" && exists m <- old(rows) :: m != id && Holder(old(rows), r.ns, r.chash, m)
      ensures rows == if res.RowReplaced? then old(rows)[id := r] else old(rows)
    {
      if id !in rows {
        res := NoRow;
      } else if r.chash != "" && exists m <- rows :: m != id && Holder(rows, r.ns, r.chash, m) {
        res := IntegrityError;
      } else {
        assert forall m <- rows :: rows[m].ns == r.ns && rows[m].chash == r.chash ==> Holder(rows, r.ns, r.chash, m);
        rows := rows[id := r];
        res := RowReplaced;
      }
    }

    method DeleteMemoryRow(id: Id) returns (deleted: bool)
      modifies this`rows
      ensures rows == old(rows) - {id} && (deleted <==> id in old(rows))
    {
      deleted := id in rows;
      rows := rows - {id};
    }

    method GetMemories(ids: set<Id>) returns (found: map<Id, Rec>)
      ensures found == Pick(rows, ids)
    {
      found := Pick(rows, ids);
    }

    /** The rows holding one of the pairs; only non-empty hashes are looked up. */
    method GetMemoriesByIdentity(pairs: set<Pair>) returns (found: map<Id, Rec>)
      ensures found == Sharing(rows, pairs)
    {
      found := Sharing(rows, pairs);
    }

    method SetReplayWatermark(id: Id, m: Mark)
      modifies this`marks
      ensures marks == old(marks)[id := m]
    {
      marks := marks[id := m];
    }

    method DeleteReplayWatermark(id: Id)
      modifies this`marks
      ensures marks == old(marks) - {id}
    {
      marks := marks - {id};
    }

    method RecordTombstone(id: Id, t: Tomb)
      modifies this`tombs
      ensures tombs == old(tombs)[id := t]
    {
      tombs := tombs[id := t];
    }

    /** The first `limit` events of the scope after a position, in order. */
    method QueryEvents(ns: Option<string>, after: int, limit: nat) returns (page: seq<Event>)
      ensures var all := InScope(events, ns, after); page == if |all| <= limit then all else all[..limit]
    {
      page := [];
      var i := 0;
      while i < |events| && |page| < limit
        invariant 0 <= i <= |events| && page == InScope(events[..i], ns, after) && |page| <= limit
      {
        assert events[..i + 1][..i] == events[..i];
        var e := events[i];
        if e.seqNo > after && (ns.Some? ==> e.ns == ns.value) {
          page := page + [e];
        }
        i := i + 1;
      }
      if i == |events| {
        assert events[..i] == events;
      } else {
        InScopePrefix(events, i, ns, after);
      }
    }

    /** One row change with its event, as every write of the source commits it. */
    method AppendEvent(e: Event)
      requires e.seqNo > lastSeq && Valid()
      modifies this`events, this`lastSeq
      ensures Valid() && EventLog() == Append(old(EventLog()), e)
    {
      assert forall i :: 0 <= i < |events| ==> events[i].seqNo <= LastSeq(events, 0);
      events := events + [e];
      lastSeq := e.seqNo;
    }

    /** update_memory_record: check, replace the row, log the event, set the watermark. */
    method UpdateMemoryRecord(id: Id, after: Rec, st: Stamp, reason: string) returns (r: Result<Event, WriteError>)
      requires Valid() && st.seqNo > lastSeq
      modifies this
      ensures Valid() && saved == old(saved)
      ensures r == UpdateEvent(old(Value()), id, after, st, reason)
      ensures Value() == if r.Ok? then Logged(old(Value()), r.value) else old(Value())
    {
      if id !in rows {
        return Err(if id in tombs then AlreadyDeleted else NotFound);
      }
      var before := rows[id];
      var now := after.(ns := before.ns);
      if now.chash != "" && exists m <- rows :: Holder(rows, now.ns, now.chash, m) && m != id {
        return Err(Collision);
      }
      if now.fp == "" || !now.portable {
        return Err(InvalidRecord);
      }
      var e := UpdatedEvent(id, before, now, identity, st, reason);
      var res := ReplaceMemoryRecord(id, now);
      AppendEvent(e);
      SetReplayWatermark(id, MarkOf(e, identity));
      r := Ok(e);
    }

    /** delete_memory_record: remove row and watermark, log the event, keep a tombstone. */
    method DeleteMemoryRecord(id: Id, deletedAt: string, reason: string, st: Stamp) returns (r: Result<Event, WriteError>)
      requires Valid() && st.seqNo > lastSeq
      modifies this
      ensures Valid() && saved == old(saved)
      ensures r == DeleteEvent(old(Value()), id, deletedAt, reason, st)
      ensures Value() == if r.Ok? then Logged(old(Value()), r.value) else old(Value())
    {
      if id !in rows {
        return Err(if id in tombs then AlreadyDeleted else NotFound);
      }
      var before := rows[id];
      var e := DeletedEvent(id, before, identity, st, deletedAt, reason);
      var gone := DeleteMemoryRow(id);
      DeleteReplayWatermark(id);
      AppendEvent(e);
      RecordTombstone(id, TombOf(e, before.content));
      r := Ok(e);
    }

    /** Add a record under a new id, or log that its content is there already. */
    method AddMemory(id: Id, rec: Rec, st: Stamp) returns (e: Event)
      requires Valid() && st.seqNo > lastSeq && id !in rows
      modifies this
      ensures Valid() && saved == old(saved)
      ensures e == AddEvent(old(Value()), id, rec, st) && Value() == Logged(old(Value()), e)
    {
      if Held(rows, rec.ns, rec.chash) {
        var m :| m in rows && Holder(rows, rec.ns, rec.chash, m);
        e := DeduplicatedEvent(m, rec, identity, st);
      } else {
        e := CreatedEvent(id, rec, identity, st);
        assert forall m <- rows :: rows[m].ns == rec.ns && rows[m].chash == rec.chash ==> Holder(rows, rec.ns, rec.chash, m);
        rows := rows[id := rec];
      }
      AppendEvent(e);
    }

    /** Advance the trim watermark and the recorded head before events go. */
    method NoteRemoved(maxRow: Event, head: Event)
      modifies this`trimmedThrough, this`lastHeadSeq, this`lastHeadId
      ensures EventLog() == Noted(old(EventLog()), maxRow, head)
    {
      if maxRow.seqNo > trimmedThrough { trimmedThrough := maxRow.seqNo; }
      if head.seqNo >= lastHeadSeq {
        lastHeadSeq := head.seqNo;
        lastHeadId := head.eventId;
      }
    }

    /** The watermark updates shared by both trims, once `k` events are to go. */
    method Retire(k: nat) returns (deleted: nat)
      requires Valid() && k <= |events|
      modifies this
      ensures Valid() && Data() == old(Data()) && saved == old(saved) && deleted == k
      ensures EventLog() == Trim(old(EventLog()), old(events)[k..])
    {
      deleted := k;
      TrimNotes(EventLog(), k);
      SuffixIncreases(events, k);
      if k > 0 {
        NoteRemoved(events[k - 1], events[|events| - 1]);
      }
      events := events[k..];
    }

    /** The index of the first event that stays. */
    method FirstKept(s: int) returns (k: nat)
      requires Increasing(events)
      ensures k <= |events| && From(events, s) == events[k..]
    {
      k := 0;
      while k < |events| && events[k].seqNo < s
        invariant 0 <= k <= |events| && forall i :: 0 <= i < k ==> events[i].seqNo < s
      {
        k := k + 1;
      }
      ghost var j := FromIsSuffix(events, s);
      assert (j < |events| ==> events[j].seqNo >= s) && (k < |events| ==> events[k].seqNo >= s);
    }

    method TrimEventsBeforeSeq(s: int) returns (deleted: nat)
      requires Valid()
      modifies this
      ensures Valid() && Data() == old(Data()) && saved == old(saved)
      ensures EventLog() == TrimBefore(old(EventLog()), s) && deleted == |old(events)| - |events|
    {
      var k := FirstKept(s);
      deleted := Retire(k);
    }

    method TrimEventsByCount(keep: nat) returns (deleted: nat)
      requires Valid()
      modifies this
      ensures Valid() && Data() == old(Data()) && saved == old(saved)
      ensures EventLog() == TrimCount(old(EventLog()), keep) && deleted == |old(events)| - |events|
    {
      assert events[0..] == events;
      deleted := Retire(if |events| <= keep then 0 else |events| - keep);
    }

    method EventLogBounds() returns (b: Bounds)
      requires Valid()
      ensures b == BoundsOf(EventLog())
    {
      var maxSeq := if |events| > 0 then events[|events| - 1].seqNo else 0;
      var headId := "";
      if maxSeq > 0 {
        headId := events[|events| - 1].eventId;
      } else if lastHeadSeq > 0 {
        headId := lastHeadId;
      }
      var headSeq := Max(Max(maxSeq, trimmedThrough), lastHeadSeq);
      b := Bounds(|events|, if |events| > 0 then events[0].seqNo else 0, maxSeq, headSeq, headId, trimmedThrough);
    }

    method EventAtSeq(s: int) returns (e: Option<Event>)
      ensures e == EventAt(events, s)
    {
      var i := 0;
      while i < |events|
        invariant 0 <= i <= |events| && EventAt(events, s) == EventAt(events[i..], s)
      {
        if events[i].seqNo == s { return Some(events[i]); }
        i := i + 1;
      }
      e := None;
    }

    /** validate_replay_cursor, as far as it concerns the source. */
    method ValidateCursor(c: Cursor, want: Option<string>) returns (bad: Option<CursorError>)
      requires Valid()
      ensures bad == CheckCursor(EventLog(), identity, c, want)
    {
      if !Persistent(identity) { return Some(NoPersistentIdentity); }
      var b := EventLogBounds();
      if c.owner.mount != identity.mount { return Some(WrongSource); }
      if c.owner.replica != identity.replica || c.owner.history != identity.history { return Some(ReplacedHistory); }
      if want.Some? && want != c.ns { return Some(ScopeMismatch); }
      if !(c.types <= ALL_RECONSTRUCTING) { return Some(NonReconstructingType); }
      if compactedThrough > 0 && c.seqNo < compactedThrough { return Some(StaleBase); }
      if b.headSeq == 0 && trimmedThrough == 0 {
        return if c.seqNo > 0 then Some(StaleBase) else None;
      }
      if c.seqNo < trimmedThrough || c.seqNo > b.maxSeq { return Some(StaleBase); }
      if c.seqNo > 0 {
        var anchor := EventAtSeq(c.seqNo);
        if anchor.None? { return Some(StaleBase); }
        if anchor.value.eventId != c.anchor { return Some(AnchorMismatch); }
      }
      bad := None;
    }

    /** Whether some candidate must not be dropped. */
    method FindUnsafe(candidates: set<Id>) returns (found: bool)
      requires candidates <= tombs.Keys
      ensures found <==> exists m :: m in candidates && Unsafe(rows, events, m, tombs[m].seqNo)
    {
      var left := candidates;
      while left != {}
        invariant left <= candidates
        invariant forall m <- candidates - left :: !Unsafe(rows, events, m, tombs[m].seqNo)
      {
        var m :| m in left;
        if m in rows || HasEventsUpTo(events, tombs[m].seqNo, m) {
          assert Unsafe(rows, events, m, tombs[m].seqNo);
          return true;
        }
        left := left - {m};
      }
      found := false;
    }

    /** compact_tombstones: check every candidate, then drop them and advance the watermark. */
    method CompactTombstones(through: nat, acked: Option<int>, ns: Option<string>, strict: bool) returns (r: Option<CompactError>)
      requires Valid()
      modifies this
      ensures Valid() && saved == old(saved)
      ensures match Compact(old(Value()), through, acked, ns, strict)
              case Ok(s) => r == None && Value() == s
              case Err(e) => r == Some(e) && Value() == old(Value())
    {
      var all := Listed(tombs, ns);
      if Through(all, through) == {} {
        return None;
      }
      if strict && acked.Some? && through > acked.value {
        return Some(Unacknowledged);
      }
      if strict && through > trimmedThrough {
        return Some(NotTrimmed);
      }
      var effective := Horizon(trimmedThrough, through, acked, strict);
      var candidates := Through(all, effective);
      var conflict := FindUnsafe(candidates);
      if conflict {
        return Some(UnsafeCandidate);
      }
      tombs := tombs - candidates;
      if effective > 0 { compactedThrough := Max(compactedThrough, effective); }
      r := None;
    }
  }

  lemma {:induction false} InScopePrefix(es: seq<Event>, i: nat, ns: Option<string>, after: int)
    requires i <= |es|
    ensures InScope(es[..i], ns, after) <= InScope(es, ns, after)
  {
    if i == |es| {
      assert es[..i] == es;
    } else {
      InScopePrefix(es[..|es| - 1], i, ns, after);
      assert es[..|es| - 1][..i] == es[..i];
    }
  }
}
