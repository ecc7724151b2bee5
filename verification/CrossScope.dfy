/** What happens when a replica of one namespace replays with a cursor of another scope: when it is
    accepted, and exactly what arrives. */
module CrossScope {
  import opened Records
  import opened Execution
  import opened Idempotence
  import opened Composition
  import opened History
  import opened Retention
  import opened Replication

  /** A namespace of scope `ns` other than `n`. */
  predicate Outside(k: string, n: string, ns: Option<string>) {
    k != n && (ns.Some? ==> k == ns.value)
  }

  /** The events of a window that are not of namespace `n`. */
  function Others(es: seq<Event>, n: string): seq<Event> {
    if es == [] then []
    else
      var m := |es| - 1;
      if es[m].ns != n then Others(es[..m], n) + [es[m]] else Others(es[..m], n)
  }

  /** What the scope has outside `n` after position `s`. */
  function Strangers(es: seq<Event>, n: string, ns: Option<string>, s: int): seq<Event> {
    Others(InScope(es, ns, s), n)
  }

  lemma StrangersSnoc(past: seq<Event>, e: Event, n: string, ns: Option<string>, s: int)
    ensures Strangers(past + [e], n, ns, s) ==
            if e.seqNo > s && Outside(e.ns, n, ns) then Strangers(past, n, ns, s) + [e] else Strangers(past, n, ns, s)
  {
    assert (past + [e])[..|past|] == past;
    var w := InScope(past, ns, s);
    assert (w + [e])[..|w|] == w;
  }

  /** The ids created after position `s`. */
  function Newborns(es: seq<Event>, s: int): set<Id> {
    set e | e in es && e.etype.Created? && e.seqNo > s :: e.id
  }

  lemma NewbornsSnoc(past: seq<Event>, e: Event, s: int)
    ensures Newborns(past + [e], s) == if e.etype.Created? && e.seqNo > s then Newborns(past, s) + {e.id} else Newborns(past, s)
  {
  }

  lemma NothingBornBefore(es: seq<Event>, s: int)
    requires forall e <- es :: e.seqNo <= s
    ensures Newborns(es, s) == {}
  {
  }

  /** The rows and tombstones of the ids `born` in the scope's other namespaces. */
  function OtherRows(rows: map<Id, Rec>, n: string, ns: Option<string>, born: set<Id>): map<Id, Rec> {
    map m | m in rows && Outside(rows[m].ns, n, ns) && m in born :: rows[m]
  }

  function OtherTombs(tombs: map<Id, Tomb>, n: string, ns: Option<string>, born: set<Id>): map<Id, Tomb> {
    map m | m in tombs && Outside(tombs[m].ns, n, ns) && m in born :: tombs[m]
  }

  /** `part` holds what `db` holds of the ids `born` in the scope's other namespaces. */
  ghost predicate HoldsOthers(part: DB, db: DB, n: string, ns: Option<string>, born: set<Id>) {
    part.rows == OtherRows(db.rows, n, ns, born) && part.tombs == OtherTombs(db.tombs, n, ns, born)
  }

  /** `es` is itself the history of a source, with the `born` part of the other namespaces. */
  ghost predicate Standalone(es: seq<Event>, hist: seq<Event>, src: Identity, n: string, ns: Option<string>, born: set<Id>) {
    && Sourced(es, src) && LastSeq(es, 0) <= LastSeq(hist, 0) && IdsOf(es) <= IdsOf(hist)
    && HoldsOthers(Tables(es, src), Tables(hist, src), n, ns, born)
  }

  lemma PutOtherRow(rows: map<Id, Rec>, m: Id, r: Rec, n: string, ns: Option<string>, born: set<Id>)
    ensures OtherRows(rows[m := r], n, ns, born) ==
            if Outside(r.ns, n, ns) && m in born then OtherRows(rows, n, ns, born)[m := r] else OtherRows(rows, n, ns, born) - {m}
  {
  }

  lemma DropOtherRow(rows: map<Id, Rec>, m: Id, n: string, ns: Option<string>, born: set<Id>)
    ensures OtherRows(rows - {m}, n, ns, born) == OtherRows(rows, n, ns, born) - {m}
  {
  }

  lemma PutOtherTomb(tombs: map<Id, Tomb>, m: Id, t: Tomb, n: string, ns: Option<string>, born: set<Id>)
    ensures OtherTombs(tombs[m := t], n, ns, born) ==
            if Outside(t.ns, n, ns) && m in born then OtherTombs(tombs, n, ns, born)[m := t] else OtherTombs(tombs, n, ns, born) - {m}
  {
  }

  /** A birth outside what counts, or of an id without row and tombstone, shows nothing new. */
  lemma BornUnseen(db: DB, m: Id, n: string, ns: Option<string>, born: set<Id>)
    requires (m in db.rows ==> !Outside(db.rows[m].ns, n, ns)) && (m in db.tombs ==> !Outside(db.tombs[m].ns, n, ns))
    ensures OtherRows(db.rows, n, ns, born + {m}) == OtherRows(db.rows, n, ns, born)
    ensures OtherTombs(db.tombs, n, ns, born + {m}) == OtherTombs(db.tombs, n, ns, born)
  {
  }

  lemma EmittedAlone(db: DB, part: DB, e: Event, src: Identity, n: string, ns: Option<string>, born: set<Id>)
    requires Emitted(db, e, src) && Outside(e.ns, n, ns) && (e.etype.Updated? || e.etype.Deleted? ==> e.id in born)
    requires HoldsOthers(part, db, n, ns, born)
    ensures Emitted(part, e, src)
  {
    if Reconstructing(e.etype) {
      assert e.rec.ns == e.ns;
      assert forall m :: Holder(part.rows, e.rec.ns, e.rec.chash, m) ==> Holder(db.rows, e.rec.ns, e.rec.chash, m);
    }
  }

  /** A create in another namespace. */
  lemma CreateAlone(db: DB, part: DB, e: Event, src: Identity, n: string, ns: Option<string>, born: set<Id>)
    requires Emitted(db, e, src) && e.etype.Created? && Outside(e.ns, n, ns)
    requires HoldsOthers(part, db, n, ns, born)
    ensures HoldsOthers(Write(part, e, src), Write(db, e, src), n, ns, born + {e.id})
  {
    BornUnseen(db, e.id, n, ns, born);
    PutOtherRow(db.rows, e.id, e.rec, n, ns, born + {e.id});
  }

  /** A change in another namespace, of an id that counts. */
  lemma ChangeAlone(db: DB, part: DB, e: Event, src: Identity, n: string, ns: Option<string>, born: set<Id>)
    requires Emitted(db, e, src) && !e.etype.Created? && Outside(e.ns, n, ns) && (e.etype.Updated? || e.etype.Deleted? ==> e.id in born)
    requires HoldsOthers(part, db, n, ns, born)
    ensures HoldsOthers(Write(part, e, src), Write(db, e, src), n, ns, born)
  {
    if e.etype.Updated? {
      PutOtherRow(db.rows, e.id, e.rec, n, ns, born);
    } else if e.etype.Deleted? {
      DropOtherRow(db.rows, e.id, n, ns, born);
      PutOtherTomb(db.tombs, e.id, TombOf(e, KeptOf(db.rows, e.id)), n, ns, born);
      assert KeptOf(part.rows, e.id) == KeptOf(db.rows, e.id);
    }
  }

  lemma UpdateElsewhere(db: DB, e: Event, src: Identity, n: string, ns: Option<string>, born: set<Id>)
    requires Emitted(db, e, src) && !Outside(e.ns, n, ns) && e.etype.Updated?
    ensures OtherRows(db.rows[e.id := e.rec], n, ns, born) == OtherRows(db.rows, n, ns, born)
  {
    PutOtherRow(db.rows, e.id, e.rec, n, ns, born);
    assert e.id !in OtherRows(db.rows, n, ns, born);
  }

  lemma DeleteElsewhere(db: DB, e: Event, src: Identity, n: string, ns: Option<string>, born: set<Id>)
    requires Emitted(db, e, src) && Consistent(db) && !Outside(e.ns, n, ns) && e.etype.Deleted?
    ensures OtherRows(db.rows - {e.id}, n, ns, born) == OtherRows(db.rows, n, ns, born)
    ensures OtherTombs(db.tombs[e.id := TombOf(e, KeptOf(db.rows, e.id))], n, ns, born) == OtherTombs(db.tombs, n, ns, born)
  {
    DropOtherRow(db.rows, e.id, n, ns, born);
    PutOtherTomb(db.tombs, e.id, TombOf(e, KeptOf(db.rows, e.id)), n, ns, born);
    assert e.id !in OtherRows(db.rows, n, ns, born) && e.id !in OtherTombs(db.tombs, n, ns, born);
  }

  /** A change outside the scope, or inside `n`. */
  lemma ChangeElsewhere(db: DB, e: Event, src: Identity, n: string, ns: Option<string>, born: set<Id>)
    requires Emitted(db, e, src) && Consistent(db) && !Outside(e.ns, n, ns) && !e.etype.Created?
    ensures OtherRows(Write(db, e, src).rows, n, ns, born) == OtherRows(db.rows, n, ns, born)
    ensures OtherTombs(Write(db, e, src).tombs, n, ns, born) == OtherTombs(db.tombs, n, ns, born)
  {
    if e.etype.Updated? {
      UpdateElsewhere(db, e, src, n, ns, born);
    } else if e.etype.Deleted? {
      DeleteElsewhere(db, e, src, n, ns, born);
    }
  }

  /** A create outside the scope, or inside `n`. */
  lemma CreateElsewhere(db: DB, e: Event, src: Identity, n: string, ns: Option<string>, born: set<Id>)
    requires Emitted(db, e, src) && !Outside(e.ns, n, ns) && e.etype.Created?
    ensures OtherRows(Write(db, e, src).rows, n, ns, born + {e.id}) == OtherRows(db.rows, n, ns, born)
    ensures OtherTombs(Write(db, e, src).tombs, n, ns, born + {e.id}) == OtherTombs(db.tombs, n, ns, born)
  {
    BornUnseen(db, e.id, n, ns, born);
    PutOtherRow(db.rows, e.id, e.rec, n, ns, born + {e.id});
  }

  /** In the window, changes outside `n` are of records that the window creates. */
  ghost predicate Closed(hist: seq<Event>, n: string, ns: Option<string>, s: int) {
    forall e <- hist :: e.seqNo > s && Outside(e.ns, n, ns) && (e.etype.Updated? || e.etype.Deleted?) ==> e.id in Newborns(hist, s)
  }

  lemma IdsSnoc(es: seq<Event>, e: Event)
    ensures IdsOf(es + [e]) == IdsOf(es) + {e.eventId} && LastSeq(es + [e], 0) == e.seqNo
  {
  }

  lemma WriteAlone(db: DB, part: DB, e: Event, src: Identity, n: string, ns: Option<string>, born: set<Id>)
    requires Emitted(db, e, src) && Outside(e.ns, n, ns) && (e.etype.Updated? || e.etype.Deleted? ==> e.id in born)
    requires HoldsOthers(part, db, n, ns, born)
    ensures HoldsOthers(Write(part, e, src), Write(db, e, src), n, ns, if e.etype.Created? then born + {e.id} else born)
  {
    if e.etype.Created? {
      CreateAlone(db, part, e, src, n, ns, born);
    } else {
      ChangeAlone(db, part, e, src, n, ns, born);
    }
  }

  /** One more event of the source that counts. */
  lemma AloneNext(es: seq<Event>, past: seq<Event>, e: Event, src: Identity, n: string, ns: Option<string>, born: set<Id>)
    requires Standalone(es, past, src, n, ns, born) && Emitted(Tables(past, src), e, src)
    requires e.seqNo > LastSeq(past, 0) && e.eventId != "" && e.eventId !in IdsOf(past)
    requires Tables(past + [e], src) == Write(Tables(past, src), e, src) && IdsOf(past + [e]) == IdsOf(past) + {e.eventId}
    requires Outside(e.ns, n, ns) && (e.etype.Updated? || e.etype.Deleted? ==> e.id in born)
    ensures Standalone(es + [e], past + [e], src, n, ns, if e.etype.Created? then born + {e.id} else born)
  {
    EmittedAlone(Tables(past, src), Tables(es, src), e, src, n, ns, born);
    SnocSourced(es, e, src);
    IdsSnoc(es, e);
    WriteAlone(Tables(past, src), Tables(es, src), e, src, n, ns, born);
  }

  /** One more event of the source that does not count. */
  lemma AloneSkips(es: seq<Event>, past: seq<Event>, e: Event, src: Identity, n: string, ns: Option<string>, born: set<Id>)
    requires Standalone(es, past, src, n, ns, born) && Emitted(Tables(past, src), e, src) && Consistent(Tables(past, src))
    requires e.seqNo > LastSeq(past, 0)
    requires Tables(past + [e], src) == Write(Tables(past, src), e, src) && IdsOf(past + [e]) == IdsOf(past) + {e.eventId}
    requires !Outside(e.ns, n, ns)
    ensures Standalone(es, past + [e], src, n, ns, if e.etype.Created? then born + {e.id} else born)
  {
    if e.etype.Created? {
      CreateElsewhere(Tables(past, src), e, src, n, ns, born);
    } else {
      ChangeElsewhere(Tables(past, src), e, src, n, ns, born);
    }
  }

  lemma {:induction false} NothingAlone(hist: seq<Event>, src: Identity, n: string, ns: Option<string>, s: int)
    requires Sourced(hist, src) && forall e <- hist :: e.seqNo <= s
    ensures Strangers(hist, n, ns, s) == [] && Newborns(hist, s) == {} && Standalone([], hist, src, n, ns, {})
  {
    NothingAfter(hist, ns, s);
    NothingBornBefore(hist, s);
    LastIsPositive(hist, src);
    assert OtherRows(Tables(hist, src).rows, n, ns, {}) == map[];
    assert OtherTombs(Tables(hist, src).tombs, n, ns, {}) == map[];
  }

  lemma UpTo(past: seq<Event>, e: Event, s: int, src: Identity)
    requires Sourced(past + [e], src) && e.seqNo <= s
    ensures forall f <- past + [e] :: f.seqNo <= s
  {
    SourcedIncreases(past + [e], src);
    AllBefore(past + [e], s);
  }

  /** The window changes only records that it creates, up to any point. */
  lemma ClosedBefore(past: seq<Event>, e: Event, src: Identity, n: string, ns: Option<string>, s: int)
    requires Sourced(past + [e], src) && Closed(past + [e], n, ns, s)
    ensures Closed(past, n, ns, s)
    ensures e.seqNo > s && Outside(e.ns, n, ns) && (e.etype.Updated? || e.etype.Deleted?) ==> e.id in Newborns(past, s)
  {
    var hist := past + [e];
    NewbornsSnoc(past, e, s);
    assert hist[|past|] == e;
    forall f | f in past && f.seqNo > s && Outside(f.ns, n, ns) && (f.etype.Updated? || f.etype.Deleted?)
      ensures f.id in Newborns(past, s)
    {
      var i :| 0 <= i < |past| && past[i] == f;
      assert hist[i] == f && f in hist;
      NoCreateAfterChange(hist, i, |past|, src);
    }
  }

  lemma SourcedSnoc(past: seq<Event>, e: Event, src: Identity)
    requires Sourced(past + [e], src)
    ensures LastSeq(past + [e], 0) == e.seqNo
    ensures Sourced(past, src) && Emitted(Tables(past, src), e, src) && Consistent(Tables(past, src))
    ensures e.seqNo > LastSeq(past, 0) && e.eventId != "" && e.eventId !in IdsOf(past)
    ensures Tables(past + [e], src) == Write(Tables(past, src), e, src) && IdsOf(past + [e]) == IdsOf(past) + {e.eventId}
  {
    assert (past + [e])[..|past|] == past;
    SourceIsConsistent(past, src);
  }

  /** What the scope has outside `n` after a position is the history of a source by itself, if it
      changes only records that it creates. */
  lemma {:induction false} StrangersStandAlone(hist: seq<Event>, src: Identity, n: string, ns: Option<string>, s: int)
    requires Sourced(hist, src) && Closed(hist, n, ns, s)
    ensures Standalone(Strangers(hist, n, ns, s), hist, src, n, ns, Newborns(hist, s))
  {
    if hist == [] {
      NothingAlone(hist, src, n, ns, s);
    } else {
      var past, e := Snoc(hist);
      SourcedSnoc(past, e, src);
      if e.seqNo <= s {
        UpTo(past, e, s, src);
        NothingAlone(hist, src, n, ns, s);
      } else {
        ClosedBefore(past, e, src, n, ns, s);
        StrangersStandAlone(past, src, n, ns, s);
        StrangersSnoc(past, e, n, ns, s);
        NewbornsSnoc(past, e, s);
        if Outside(e.ns, n, ns) {
          AloneNext(Strangers(past, n, ns, s), past, e, src, n, ns, Newborns(past, s));
        } else {
          AloneSkips(Strangers(past, n, ns, s), past, e, src, n, ns, Newborns(past, s));
        }
      }
    }
  }
}
