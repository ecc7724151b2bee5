/** A source store under adds, updates, deletes, signals, trims and compaction, over every run. */
module Sources {
  import opened Records
  import opened Idempotence
  import opened Composition
  import opened History
  import opened Retention

  datatype Store = Store(db: DB, log: Log, identity: Identity)

  function NewStore(identity: Identity): Store {
    Store(EMPTY_DB, EMPTY_LOG, identity)
  }

  /** One transaction: the row change and its event. */
  function Logged(s: Store, e: Event): Store {
    s.(db := Write(s.db, e, s.identity), log := Append(s.log, e))
  }

  predicate Held(rows: map<Id, Rec>, ns: string, hash: string) {
    hash != "" && exists m <- rows :: Holder(rows, ns, hash, m)
  }

  /** The event of an add that finds its content already stored, in row `m`. */
  function DeduplicatedEvent(m: Id, r: Rec, src: Identity, st: Stamp): Event {
    Event(st.seqNo, st.eventId, Observational, m, r.ns, st.at, NoCategory, 0, NoTransition,
          "", r, "", src, "", "", "", "")
  }

  /** An add under a new id logs the creation, or which row has the content already. */
  ghost function AddEvent(s: Store, id: Id, r: Rec, st: Stamp): Event {
    if Held(s.db.rows, r.ns, r.chash)
    then var m :| Holder(s.db.rows, r.ns, r.chash, m); DeduplicatedEvent(m, r, s.identity, st)
    else CreatedEvent(id, r, s.identity, st)
  }

  datatype WriteError = AlreadyDeleted | NotFound | Collision | InvalidRecord

  function Absent(s: Store, id: Id): WriteError {
    if id in s.db.tombs then AlreadyDeleted else NotFound
  }

  /** update_memory_record: `after` is the row with the requested changes; its namespace is kept. */
  function UpdateEvent(s: Store, id: Id, after: Rec, st: Stamp, reason: string): Result<Event, WriteError> {
    if id !in s.db.rows then Err(Absent(s, id))
    else
      var r := after.(ns := s.db.rows[id].ns);
      if r.chash != "" && exists m <- s.db.rows :: Holder(s.db.rows, r.ns, r.chash, m) && m != id then Err(Collision)
      else if r.fp == "" || !r.portable then Err(InvalidRecord)
      else Ok(UpdatedEvent(id, s.db.rows[id], r, s.identity, st, reason))
  }

  /** delete_memory_record. */
  function DeleteEvent(s: Store, id: Id, deletedAt: string, reason: string, st: Stamp): Result<Event, WriteError> {
    if id !in s.db.rows then Err(Absent(s, id))
    else Ok(DeletedEvent(id, s.db.rows[id], s.identity, st, deletedAt, reason))
  }

  /** Any other event appended to the log, about any record. */
  function SignalEvent(s: Store, known: bool, category: Category, m: Id, ns: string, st: Stamp): Event {
    var e := DeduplicatedEvent(m, Rec("", ns, "", "", false, false, "", ""), s.identity, st);
    e.(etype := if known then Observational else Unknown, category := category)
  }

  datatype CompactError = Unacknowledged | NotTrimmed | UnsafeCandidate

  /** The tombstones a compaction call looks at. */
  function Listed(tombs: map<Id, Tomb>, ns: Option<string>): map<Id, Tomb> {
    map m | m in tombs && (ns.Some? ==> tombs[m].ns == ns.value) :: tombs[m]
  }

  function Through(listed: map<Id, Tomb>, horizon: int): set<Id> {
    set m | m in listed && listed[m].seqNo <= horizon
  }

  predicate HasEventsUpTo(es: seq<Event>, horizon: int, m: Id) {
    exists i :: 0 <= i < |es| && es[i].seqNo <= horizon && es[i].memoryId == m
  }

  /** A tombstone that must not be dropped: its id is live, or events up to the delete remain. */
  predicate Unsafe(rows: map<Id, Rec>, es: seq<Event>, m: Id, at: int) {
    m in rows || HasEventsUpTo(es, at, m)
  }

  /** How far a compaction call reaches. */
  function Horizon(trimmed: int, through: int, acked: Option<int>, strict: bool): int {
    if strict then through
    else
      var h := if through < trimmed then through else trimmed;
      if acked.Some? && acked.value < h then acked.value else h
  }

  function Compact(s: Store, through: nat, acked: Option<int>, ns: Option<string>, strict: bool): Result<Store, CompactError> {
    var listed := Listed(s.db.tombs, ns);
    if Through(listed, through) == {} then Ok(s)
    else if strict && acked.Some? && through > acked.value then Err(Unacknowledged)
    else if strict && through > s.log.trimmed then Err(NotTrimmed)
    else
      var h := Horizon(s.log.trimmed, through, acked, strict);
      var candidates := Through(listed, h);
      if exists m :: m in candidates && Unsafe(s.db.rows, s.log.events, m, s.db.tombs[m].seqNo) then Err(UnsafeCandidate)
      else Ok(s.(db := s.db.(tombs := s.db.tombs - candidates),
                 log := s.log.(compacted := if h > 0 then Max(s.log.compacted, h) else s.log.compacted)))
  }

  /** The store agrees with its full history: rows and watermarks are those the history leads
      to, and only tombstones up to the compaction watermark are missing. */
  ghost predicate Faithful(s: Store, hist: seq<Event>) {
    var full := Tables(hist, s.identity);
    && Retained(s.log, hist) && Sourced(hist, s.identity)
    && s.db.rows == full.rows && s.db.marks == full.marks
    && (forall m <- s.db.tombs :: m in full.tombs && s.db.tombs[m] == full.tombs[m])
    && (forall m <- full.tombs :: m in s.db.tombs || full.tombs[m].seqNo <= s.log.compacted)
  }

  /** `uuid4` gives ids that nothing has used, and AUTOINCREMENT a larger sequence number. */
  ghost predicate Usable(s: Store, hist: seq<Event>, st: Stamp) {
    st.seqNo > s.log.last && st.eventId != "" && st.eventId !in IdsOf(hist)
  }

  ghost predicate NewId(s: Store, hist: seq<Event>, id: Id) {
    !Blank(id) && id !in Tables(hist, s.identity).rows && id !in Tables(hist, s.identity).tombs
  }

  lemma LoggedIsFaithful(s: Store, hist: seq<Event>, e: Event)
    requires Faithful(s, hist) && e.seqNo > s.log.last && e.eventId != "" && e.eventId !in IdsOf(hist)
    requires Emitted(Tables(hist, s.identity), e, s.identity)
    ensures Faithful(Logged(s, e), hist + [e])
  {
    assert (hist + [e])[..|hist|] == hist;
    AppendRetains(s.log, hist, e);
  }

  lemma AddIsEmitted(s: Store, hist: seq<Event>, id: Id, r: Rec, st: Stamp)
    requires Faithful(s, hist) && NewId(s, hist, id)
    ensures Emitted(Tables(hist, s.identity), AddEvent(s, id, r, st), s.identity)
  {
  }

  lemma UpdateIsEmitted(s: Store, hist: seq<Event>, id: Id, after: Rec, st: Stamp, reason: string)
    requires Faithful(s, hist) && UpdateEvent(s, id, after, st, reason).Ok? && Covered(s.db.rows[id], after)
    ensures Emitted(Tables(hist, s.identity), UpdateEvent(s, id, after, st, reason).value, s.identity)
  {
  }

  lemma CompactShape(s: Store, through: nat, acked: Option<int>, ns: Option<string>, strict: bool)
    requires Compact(s, through, acked, ns, strict).Ok? && 0 <= s.log.compacted <= s.log.trimmed
    ensures var c := Compact(s, through, acked, ns, strict).value;
            && c.db.rows == s.db.rows && c.db.marks == s.db.marks && c.identity == s.identity
            && c.log == s.log.(compacted := c.log.compacted)
            && s.log.compacted <= c.log.compacted <= s.log.trimmed
            && (forall m <- c.db.tombs :: m in s.db.tombs && c.db.tombs[m] == s.db.tombs[m])
            && (forall m <- s.db.tombs :: m in c.db.tombs || s.db.tombs[m].seqNo <= c.log.compacted)
  {
  }

  lemma CompactIsFaithful(s: Store, hist: seq<Event>, through: nat, acked: Option<int>, ns: Option<string>, strict: bool)
    requires Faithful(s, hist) && Compact(s, through, acked, ns, strict).Ok?
    ensures Faithful(Compact(s, through, acked, ns, strict).value, hist)
  {
    CompactShape(s, through, acked, ns, strict);
  }

  /** In a faithful store compaction never meets an unsafe candidate: a dead id has no row, and
      everything up to the horizon is trimmed. */
  lemma CompactionIsSafe(s: Store, hist: seq<Event>, through: nat, acked: Option<int>, ns: Option<string>, strict: bool)
    requires Faithful(s, hist)
    ensures Compact(s, through, acked, ns, strict) != Err(UnsafeCandidate)
  {
    SourceIsConsistent(hist, s.identity);
    var k := Gone(s.log, hist);
    forall i | 0 <= i < |s.log.events| ensures s.log.events[i].seqNo > s.log.trimmed {
      assert s.log.events[i] == hist[k + i];
    }
  }

  /** One call on the source. `after` is the updated record as the caller built it. */
  datatype Op =
    | AddOp(id: Id, r: Rec, st: Stamp)
    | UpdateOp(id: Id, after: Rec, st: Stamp, reason: string)
    | DeleteOp(id: Id, deletedAt: string, reason: string, st: Stamp)
    | SignalOp(known: bool, category: Category, m: Id, ns: string, st: Stamp)
    | TrimBeforeOp(s: int)
    | TrimCountOp(keep: nat)
    | CompactOp(through: nat, acked: Option<int>, scope: Option<string>, strict: bool)

  /** A source together with everything it ever logged. */
  datatype World = World(store: Store, hist: seq<Event>)

  /** The clock and id generators behave, and fingerprints do not collide. */
  ghost predicate Enabled(w: World, op: Op) {
    match op
    case AddOp(id, _, st) => Usable(w.store, w.hist, st) && NewId(w.store, w.hist, id)
    case UpdateOp(id, after, st, _) =>
      Usable(w.store, w.hist, st) && (id in w.store.db.rows ==> Covered(w.store.db.rows[id], after))
    case DeleteOp(_, _, _, st) => Usable(w.store, w.hist, st)
    case SignalOp(_, _, _, _, st) => Usable(w.store, w.hist, st)
    case TrimBeforeOp(_) => true
    case TrimCountOp(_) => true
    case CompactOp(_, _, _, _) => true
  }

  function LogIn(w: World, e: Event): World {
    World(Logged(w.store, e), w.hist + [e])
  }

  /** The event a call logs, if it logs one. */
  ghost function Writes(s: Store, op: Op): Option<Event> {
    match op
    case AddOp(id, r, st) => Some(AddEvent(s, id, r, st))
    case UpdateOp(id, after, st, reason) =>
      (match UpdateEvent(s, id, after, st, reason) case Ok(e) => Some(e) case Err(_) => None)
    case DeleteOp(id, at, reason, st) =>
      (match DeleteEvent(s, id, at, reason, st) case Ok(e) => Some(e) case Err(_) => None)
    case SignalOp(known, category, m, ns, st) => Some(SignalEvent(s, known, category, m, ns, st))
    case TrimBeforeOp(_) => None
    case TrimCountOp(_) => None
    case CompactOp(_, _, _, _) => None
  }

  /** What a call does to the store apart from logging an event. */
  function Maintained(s: Store, op: Op): Store {
    match op
    case TrimBeforeOp(to) => s.(log := TrimBefore(s.log, to))
    case TrimCountOp(keep) => s.(log := TrimCount(s.log, keep))
    case CompactOp(through, acked, ns, strict) =>
      (match Compact(s, through, acked, ns, strict) case Ok(c) => c case Err(_) => s)
    case AddOp(_, _, _) => s
    case UpdateOp(_, _, _, _) => s
    case DeleteOp(_, _, _, _) => s
    case SignalOp(_, _, _, _, _) => s
  }

  /** A call that fails leaves the source as it was. */
  ghost function Next(w: World, op: Op): World {
    match Writes(w.store, op)
    case Some(e) => LogIn(w, e)
    case None => w.(store := Maintained(w.store, op))
  }

  lemma WritesAreFaithful(w: World, op: Op)
    requires Faithful(w.store, w.hist) && Enabled(w, op) && Writes(w.store, op).Some?
    ensures Faithful(Next(w, op).store, Next(w, op).hist)
  {
    match op {
      case AddOp(id, r, st) => AddIsEmitted(w.store, w.hist, id, r, st);
      case UpdateOp(id, after, st, reason) => UpdateIsEmitted(w.store, w.hist, id, after, st, reason);
      case DeleteOp(id, at, reason, st) =>
      case SignalOp(known, category, m, ns, st) =>
    }
    LoggedIsFaithful(w.store, w.hist, Writes(w.store, op).value);
  }

  /** Every call keeps the source faithful to its history, and only extends the history. */
  lemma NextIsFaithful(w: World, op: Op)
    requires Faithful(w.store, w.hist) && Enabled(w, op)
    ensures Faithful(Next(w, op).store, Next(w, op).hist) && w.hist <= Next(w, op).hist
  {
    if Writes(w.store, op).Some? {
      WritesAreFaithful(w, op);
    } else {
      match op
      case TrimBeforeOp(s) => TrimBeforeRetains(w.store.log, w.hist, s);
      case TrimCountOp(keep) => TrimCountRetains(w.store.log, w.hist, keep);
      case CompactOp(through, acked, ns, strict) =>
        if Compact(w.store, through, acked, ns, strict).Ok? { CompactIsFaithful(w.store, w.hist, through, acked, ns, strict); }
      case UpdateOp(_, _, _, _) =>
      case DeleteOp(_, _, _, _) =>
    }
  }

  /** Calls that are not enabled do not happen. */
  ghost function Step(w: World, op: Op): World {
    if Enabled(w, op) then Next(w, op) else w
  }

  ghost predicate Good(w: World) {
    Faithful(w.store, w.hist)
  }

  lemma StepIsGood(w: World, op: Op)
    requires Good(w)
    ensures Good(Step(w, op)) && w.hist <= Step(w, op).hist
  {
    if Enabled(w, op) { NextIsFaithful(w, op); }
  }

  lemma StepKeepsIdentity(w: World, op: Op)
    ensures Step(w, op).store.identity == w.store.identity
  {
  }

  /** A run from a new store. */
  ghost function Run(identity: Identity, ops: seq<Op>): World {
    if ops == [] then World(NewStore(identity), [])
    else Step(Run(identity, ops[..|ops| - 1]), ops[|ops| - 1])
  }

  lemma NewStoreIsGood(identity: Identity)
    ensures Good(World(NewStore(identity), []))
  {
  }

  /** In every run the source is faithful to its history: the retained log is its suffix, the
      watermarks are exact, the rows are those the writes lead to. */
  lemma {:induction false} EveryRunIsFaithful(identity: Identity, ops: seq<Op>)
    ensures Good(Run(identity, ops)) && Run(identity, ops).store.identity == identity
  {
    if ops == [] {
      NewStoreIsGood(identity);
    } else {
      EveryRunIsFaithful(identity, ops[..|ops| - 1]);
      StepIsGood(Run(identity, ops[..|ops| - 1]), ops[|ops| - 1]);
      StepKeepsIdentity(Run(identity, ops[..|ops| - 1]), ops[|ops| - 1]);
    }
  }

  /** In every run no id is both live and tombstoned, and at most one live row holds each
      namespace and non-empty hash. */
  lemma EveryRunIsSafe(identity: Identity, ops: seq<Op>)
    ensures var db := Run(identity, ops).store.db; db.rows.Keys !! db.tombs.Keys && UniqueRows(db.rows)
  {
    EveryRunIsFaithful(identity, ops);
    var w := Run(identity, ops);
    SourceIsConsistent(w.hist, identity);
  }

  /** A deleted id stays deleted in every longer history of the source. */
  lemma {:induction false} DeadStaysDead(past: seq<Event>, more: seq<Event>, src: Identity, m: Id)
    requires Sourced(past + more, src) && m in Tables(past, src).tombs
    ensures m in Tables(past + more, src).tombs && m !in Tables(past + more, src).rows
  {
    SourceIsConsistent(past + more, src);
    if more == [] {
      assert past + more == past;
    } else {
      var n := |more| - 1;
      assert (past + more)[..|past + more| - 1] == past + more[..n];
      DeadStaysDead(past, more[..n], src, m);
    }
  }

  /** An id that any earlier state of a run had tombstoned is never live later, even when its
      tombstone has been compacted away in between. */
  lemma {:induction false} NoResurrection(identity: Identity, ops: seq<Op>, more: seq<Op>, m: Id)
    requires m in Run(identity, ops).store.db.tombs
    ensures Run(identity, ops).hist <= Run(identity, ops + more).hist
    ensures m !in Run(identity, ops + more).store.db.rows
  {
    HistoryGrows(identity, ops, more);
    var w, w' := Run(identity, ops), Run(identity, ops + more);
    EveryRunIsFaithful(identity, ops);
    EveryRunIsFaithful(identity, ops + more);
    var rest := w'.hist[|w.hist|..];
    assert w'.hist == w.hist + rest;
    DeadStaysDead(w.hist, rest, identity, m);
  }

  lemma {:induction false} HistoryGrows(identity: Identity, ops: seq<Op>, more: seq<Op>)
    ensures Run(identity, ops).hist <= Run(identity, ops + more).hist
  {
    if more == [] {
      assert ops + more == ops;
    } else {
      var n := |more| - 1;
      assert (ops + more)[..|ops + more| - 1] == ops + more[..n];
      HistoryGrows(identity, ops, more[..n]);
      EveryRunIsFaithful(identity, ops + more[..n]);
      StepIsGood(Run(identity, ops + more[..n]), more[n]);
    }
  }
}
