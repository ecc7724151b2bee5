/** Pass 1 of replay as a function: checking one event, deciding what it does to the simulated
    target, and advancing the simulation. */
module Planner {
  import opened Records

  /** The simulated target: live rows, the (namespace, hash) index, tombstones, watermarks,
      the ids touched and created by this run, and the last sequence number seen. */
  datatype View = View(
    prev: int,
    live: map<Id, Live>,
    owner: map<Pair, Id>,
    tombs: map<Id, Grave>,
    marks: map<Id, Mark>,
    mutated: set<Id>,
    created: set<Id>)

  datatype Disposition = Observed | SkipIdempotent | SkipDeduped | ApplyCreate | ApplyUpdate | ApplyDelete

  predicate IsApply(d: Disposition) {
    d.ApplyCreate? || d.ApplyUpdate? || d.ApplyDelete?
  }

  /** An empty recorded history, or none on the source, matches anything. */
  predicate SameHistory(recorded: string, src: Identity) {
    recorded == "" || src.history == "" || recorded == src.history
  }

  /** The timestamp a delete carries: its own, or else the envelope's. */
  function DeletedAt(e: Event): string {
    if e.deletedAt != "" then e.deletedAt else e.occurredAt
  }

  function TransitionOf(t: EventType): Transition {
    match t
    case Created => CreateTransition
    case Updated => UpdateTransition
    case Deleted => DeleteTransition
    case Observational => NoTransition
    case Unknown => NoTransition
  }

  /** The checks made before the simulated target is consulted. */
  function CheckEvent(e: Event, prev: int, src: Identity, scope: set<EventType>): Option<Reason> {
    if e.seqNo <= 0 || e.seqNo <= prev then Some(InvalidEventOrder)
    else if e.etype.Unknown? then Some(UnsupportedEventType)
    else if e.etype.Observational? then
      if e.category in {NoCategory, ObservationalCategory} then None else Some(MalformedPayload)
    else if e.category !in {NoCategory, ReconstructingCategory} then Some(MalformedPayload)
    else if e.etype !in scope then Some(IncompleteScope)
    else if e.version != 1 then Some(UnsupportedVersion)
    else if Blank(e.id) then Some(MalformedPayload)
    else if e.memoryId == "" then Some(IdentityMismatch)
    else if e.memoryId != e.id then Some(IdentityMismatch)
    else if e.declaredFp == "" then Some(MalformedPayload)
    else if !Persistent(e.origin) then Some(MalformedPayload)
    else if e.ns != e.rec.ns then Some(IdentityMismatch)
    else if src.mount != "" && e.origin.mount != src.mount then Some(OriginMismatch)
    else if src.history != "" && e.origin.history != src.history then Some(OriginMismatch)
    else if e.transition !in {NoTransition, TransitionOf(e.etype)} then Some(MalformedPayload)
    else if e.etype.Deleted? then
      if Blank(DeletedAt(e)) || e.rec.chash == "" || e.rec.identifier == "" then Some(MalformedPayload) else None
    else if e.rec.fp == "" || e.rec.chash == "" || !e.rec.portable then Some(MalformedPayload)
    else if !e.rec.canonicalHash || e.declaredFp != e.rec.fp then Some(IdentityMismatch)
    else None
  }

  /** Everything the decision about one event looks at. */
  datatype Local = Local(
    live: Option<Live>,
    tomb: Option<Grave>,
    mark: Option<Mark>,
    holder: Option<Id>,
    mutated: bool,
    created: bool)

  function Get<K, V>(m: map<K, V>, k: K): Option<V> {
    if k in m then Some(m[k]) else None
  }

  function LocalOf(v: View, e: Event): Local {
    Local(Get(v.live, e.id), Get(v.tombs, e.id), Get(v.marks, e.id),
          Get(v.owner, (e.rec.ns, e.rec.chash)), e.id in v.mutated, e.id in v.created)
  }

  /** The event lies at or before the recorded deletion, in the same history. */
  predicate Buried(g: Grave, e: Event, src: Identity) {
    e.seqNo <= g.seqNo && SameHistory(g.history, src)
  }

  /** The watermark proves that the untouched live row is already past the event. */
  predicate MarkCovers(l: Local, e: Event, src: Identity)
    requires l.live.Some?
  {
    l.mark.Some? && !l.mutated && l.mark.value.lastSeq >= e.seqNo &&
    SameHistory(l.mark.value.history, src) && l.live.value.fp == l.mark.value.fp
  }

  /** A watermark without a fingerprint marks a source id that a legacy replay deduplicated. */
  predicate LegacyMarker(mark: Option<Mark>, src: Identity) {
    mark.Some? && mark.value.fp == "" && SameHistory(mark.value.history, src)
  }

  function Decide(e: Event, src: Identity, l: Local): Result<Disposition, Reason>
    requires Reconstructing(e.etype)
  {
    match e.etype
    case Created => DecideCreate(e, src, l)
    case Updated => DecideUpdate(e, src, l)
    case Deleted => DecideDelete(e, src, l)
  }

  predicate Holds(l: Live, e: Event) {
    l.fp == e.rec.fp && l.chash == e.rec.chash
  }

  predicate HeldByOther(l: Local, e: Event) {
    l.holder.Some? && l.holder.value != e.id
  }

  function DecideCreate(e: Event, src: Identity, l: Local): Result<Disposition, Reason> {
    if l.tomb.Some? then
      if Buried(l.tomb.value, e, src) && !l.created then Ok(SkipIdempotent) else Err(Resurrection)
    else if l.live.Some? then
      if l.live.value.ns != e.rec.ns then Err(IdentityMismatch)
      else if Holds(l.live.value, e) then Ok(SkipIdempotent)
      else if MarkCovers(l, e, src) then Ok(SkipIdempotent)
      else Err(IdentityMismatch)
    else if HeldByOther(l, e) then Err(IdentityMismatch)
    else Ok(ApplyCreate)
  }

  function DecideUpdate(e: Event, src: Identity, l: Local): Result<Disposition, Reason> {
    if l.tomb.Some? then
      if Buried(l.tomb.value, e, src) && !l.mutated then Ok(SkipIdempotent) else Err(TombstonedMutation)
    else if l.live.None? then
      if LegacyMarker(l.mark, src) then Ok(SkipDeduped) else Err(MissingTarget)
    else if l.live.value.ns != e.rec.ns then Err(IdentityMismatch)
    else if e.prevHash == "" || e.prevFp == "" then Err(MalformedPayload)
    else if Holds(l.live.value, e) &&
            (e.prevHash != e.rec.chash || l.live.value.chash == e.prevHash) &&
            (e.prevFp != e.rec.fp || l.live.value.fp == e.prevFp)
    then Ok(SkipIdempotent)
    else if MarkCovers(l, e, src) then Ok(SkipIdempotent)
    else if l.live.value.chash != e.prevHash then Err(BaseStateMismatch)
    else if l.live.value.fp != e.prevFp then Err(BaseStateMismatch)
    else if HeldByOther(l, e) then Err(HashConflict)
    else Ok(ApplyUpdate)
  }

  function DecideDelete(e: Event, src: Identity, l: Local): Result<Disposition, Reason> {
    if l.tomb.Some? then
      if l.live.None? && !l.mutated &&
         ((e.eventId != "" && l.tomb.value.eventId == e.eventId) || Buried(l.tomb.value, e, src))
      then Ok(SkipIdempotent) else Err(AlreadyTombstoned)
    else if l.live.None? then
      if LegacyMarker(l.mark, src) then Ok(SkipDeduped) else Err(MissingTarget)
    else if l.live.value.ns != e.rec.ns then Err(IdentityMismatch)
    else if l.live.value.identifier != e.rec.identifier then Err(IdentityMismatch)
    else if l.live.value.chash != e.rec.chash then Err(BaseStateMismatch)
    else if l.live.value.fp != e.declaredFp then Err(BaseStateMismatch)
    else Ok(ApplyDelete)
  }

  /** The index after a row with hash `before` takes the event's hash. */
  function Reindex(owner: map<Pair, Id>, e: Event, before: string): map<Pair, Id> {
    (if before != e.rec.chash then owner - {(e.rec.ns, before)} else owner)[(e.rec.ns, e.rec.chash) := e.id]
  }

  function HashOf(live: map<Id, Live>, id: Id): string {
    if id in live then live[id].chash else ""
  }

  /** The simulated target after disposition `d`. */
  function Effect(v: View, e: Event, d: Disposition, src: Identity): View {
    match d
    case ApplyCreate =>
      v.(prev := e.seqNo, live := v.live[e.id := LiveOf(e.rec)],
         owner := v.owner[(e.rec.ns, e.rec.chash) := e.id],
         mutated := v.mutated + {e.id}, created := v.created + {e.id})
    case ApplyUpdate =>
      v.(prev := e.seqNo, live := v.live[e.id := LiveOf(e.rec)],
         owner := Reindex(v.owner, e, HashOf(v.live, e.id)),
         mutated := v.mutated + {e.id})
    case ApplyDelete =>
      v.(prev := e.seqNo, live := v.live - {e.id},
         owner := v.owner - {(e.rec.ns, HashOf(v.live, e.id))},
         tombs := v.tombs[e.id := Grave(e.seqNo, e.eventId, src.history)],
         mutated := v.mutated + {e.id})
    case Observed => v.(prev := e.seqNo)
    case SkipIdempotent => v.(prev := e.seqNo)
    case SkipDeduped => v.(prev := e.seqNo)
  }

  function Disposed(e: Event, src: Identity, scope: set<EventType>, v: View): Result<Disposition, Reason> {
    match CheckEvent(e, v.prev, src, scope)
    case Some(r) => Err(r)
    case None => if e.etype.Observational? then Ok(Observed) else Decide(e, src, LocalOf(v, e))
  }

  datatype Plan = Raised(reason: Reason) | Planned(ds: seq<Disposition>, view: View)

  /** Pass 1 over a whole window: the dispositions and the simulated target, or the first error. */
  function PlanAll(es: seq<Event>, src: Identity, scope: set<EventType>, v: View): (p: Plan)
    ensures p.Planned? ==> |p.ds| == |es|
  {
    if es == [] then Planned([], v)
    else
      var n := |es| - 1;
      match PlanAll(es[..n], src, scope, v)
      case Raised(r) => Raised(r)
      case Planned(ds, w) =>
        match Disposed(es[n], src, scope, w)
        case Err(r) => Raised(r)
        case Ok(d) => Planned(ds + [d], Effect(w, es[n], d, src))
  }

  /** Planning one more event. */
  lemma PlanStep(past: seq<Event>, e: Event, src: Identity, scope: set<EventType>, v: View)
    ensures PlanAll(past + [e], src, scope, v) ==
            match PlanAll(past, src, scope, v)
            case Raised(r) => Raised(r)
            case Planned(ds, w) =>
              match Disposed(e, src, scope, w)
              case Err(r) => Raised(r)
              case Ok(d) => Planned(ds + [d], Effect(w, e, d, src))
  {
    assert (past + [e])[..|past|] == past;
  }
}
