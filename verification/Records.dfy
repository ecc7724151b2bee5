/** The values that replication works on: memory records, event rows, tombstones,
    per-record replay watermarks, and the reasons a replay is refused. */
module Records {
  import Text

  datatype Option<+T> = None | Some(value: T)

  datatype Result<+T, +E> = Ok(value: T) | Err(error: E)

  type Id = string

  /** The (namespace, content hash) identity of a row. */
  type Pair = (string, string)

  /** A memory row. `fp` is the record fingerprint of the row, empty exactly when the row does
      not normalise; `portable` says that record validation finds no issue; `canonicalHash` says
      that `chash` is one of the hashes accepted for the row's own content; `keyHash` is the hash
      that identifies the row's content: `chash`, or for a file reference the hash of today's
      scheme; `content` stands for the remaining columns. */
  datatype Rec = Rec(
    identifier: string,
    ns: string,
    chash: string,
    fp: string,
    portable: bool,
    canonicalHash: bool,
    keyHash: string,
    content: string)

  /** What the planner remembers of a live row. */
  datatype Live = Live(identifier: string, ns: string, chash: string, fp: string)

  function LiveOf(r: Rec): Live {
    Live(r.identifier, r.ns, r.chash, r.fp)
  }

  function PairOf(l: Live): Pair {
    (l.ns, l.chash)
  }

  /** Mount, replica and history identity of a store. */
  datatype Identity = Identity(mount: string, replica: string, history: string)

  predicate Persistent(i: Identity) {
    i.mount != "" && i.replica != "" && i.history != ""
  }

  datatype EventType = Created | Updated | Deleted | Observational | Unknown

  predicate Reconstructing(t: EventType) {
    t.Created? || t.Updated? || t.Deleted?
  }

  const ALL_RECONSTRUCTING: set<EventType> := {Created, Updated, Deleted}

  /** The optional `event_category` claim of a payload. */
  datatype Category = NoCategory | ReconstructingCategory | ObservationalCategory | OtherCategory

  datatype Transition = NoTransition | CreateTransition | UpdateTransition | DeleteTransition | OtherTransition

  /** One row of the event log with its v1 payload. `memoryId` and `ns` are the envelope
      columns, `id` and `rec` the payload's record (for a delete: its identifier, namespace and
      content hash), `declaredFp` the payload's record_fingerprint. */
  datatype Event = Event(
    seqNo: int,
    eventId: string,
    etype: EventType,
    memoryId: string,
    ns: string,
    occurredAt: string,
    category: Category,
    version: int,
    transition: Transition,
    id: Id,
    rec: Rec,
    declaredFp: string,
    origin: Identity,
    prevHash: string,
    prevFp: string,
    deletedAt: string,
    reason: string)

  datatype Tomb = Tomb(
    ns: string,
    identifier: string,
    chash: string,
    fp: string,
    deletedAt: string,
    seqNo: int,
    eventId: string,
    origin: Identity,
    kept: string,
    reason: string)

  /** The part of a tombstone that planning looks at. */
  datatype Grave = Grave(seqNo: int, eventId: string, history: string)

  function GraveOf(t: Tomb): Grave {
    Grave(t.seqNo, t.eventId, t.origin.history)
  }

  datatype Mark = Mark(
    ns: string,
    chash: string,
    fp: string,
    lastSeq: int,
    lastEventId: string,
    history: string)

  /** The `reason` codes of ReplayExecutionError. */
  datatype Reason =
    | InvalidEventOrder
    | MalformedPayload
    | UnsupportedEventType
    | IncompleteScope
    | UnsupportedVersion
    | IdentityMismatch
    | OriginMismatch
    | Resurrection
    | TombstonedMutation
    | AlreadyTombstoned
    | MissingTarget
    | BaseStateMismatch
    | HashConflict

  /** The tables that replay reads and writes. */
  datatype DB = DB(rows: map<Id, Rec>, tombs: map<Id, Tomb>, marks: map<Id, Mark>)

  const EMPTY_DB := DB(map[], map[], map[])

  /** The unique index on (namespace, content_hash), which skips empty hashes. */
  ghost predicate UniqueRows(rows: map<Id, Rec>) {
    forall a, b :: a in rows && b in rows && rows[a].chash != "" && rows[a].ns == rows[b].ns && rows[a].chash == rows[b].chash ==> a == b
  }

  /** `not s.strip()`. */
  predicate Blank(s: string) {
    forall i :: 0 <= i < |s| ==> Text.Space(s[i])
  }
}
