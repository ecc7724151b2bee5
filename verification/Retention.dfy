/** The retained event log: appending, trimming, its watermarks, and which cursors it still
    serves. A ghost history of everything ever appended stands beside it. */
module Retention {
  import opened Records
  import opened Idempotence

  /** The events table with the log entries of the meta table. `last` is the AUTOINCREMENT
      counter, `headSeq` and `headId` the last known head recorded by a trim. */
  datatype Log = Log(events: seq<Event>, last: int, trimmed: int, headSeq: int, headId: string, compacted: int)

  const EMPTY_LOG := Log([], 0, 0, 0, "", 0)

  ghost predicate Increasing(es: seq<Event>) {
    && (forall i :: 0 <= i < |es| ==> es[i].seqNo > 0)
    && (forall i, j :: 0 <= i < j < |es| ==> es[i].seqNo < es[j].seqNo)
  }

  /** How many events of the history are gone. */
  function Gone(l: Log, hist: seq<Event>): int {
    |hist| - |l.events|
  }

  /** The retained log is a suffix of the history; the trim watermark is the largest removed
      sequence number; the recorded head is the last event once nothing is retained; tombstones
      are never compacted past the trim watermark. */
  ghost predicate Retained(l: Log, hist: seq<Event>) {
    && Increasing(hist) && l.last == LastSeq(hist, 0)
    && 0 <= Gone(l, hist) && l.events == hist[Gone(l, hist)..]
    && l.trimmed == LastSeq(hist[..Gone(l, hist)], 0)
    && (l.events == [] && hist != [] ==> l.headSeq == l.last && l.headId == hist[|hist| - 1].eventId)
    && 0 <= l.headSeq <= l.last
    && 0 <= l.compacted <= l.trimmed
  }

  function Append(l: Log, e: Event): Log {
    l.(events := l.events + [e], last := e.seqNo)
  }

  lemma AppendRetains(l: Log, hist: seq<Event>, e: Event)
    requires Retained(l, hist) && e.seqNo > l.last
    ensures Retained(Append(l, e), hist + [e])
  {
    var k := Gone(l, hist);
    assert (hist + [e])[k..] == hist[k..] + [e];
    assert (hist + [e])[..k] == hist[..k];
  }

  /** DELETE FROM events WHERE seq < s. */
  function From(es: seq<Event>, s: int): seq<Event> {
    if es == [] then []
    else if es[0].seqNo < s then From(es[1..], s) else [es[0]] + From(es[1..], s)
  }

  /** Keep the `keep` highest sequence numbers. */
  function Newest(es: seq<Event>, keep: nat): seq<Event> {
    if |es| <= keep then es else es[|es| - keep..]
  }

  /** MAX(seq) over the events that are not kept, 0 when there are none. */
  function MaxRemoved(es: seq<Event>, kept: seq<Event>): int {
    if |kept| < |es| then es[|es| - |kept| - 1].seqNo else 0
  }

  /** The log after a trim that leaves `kept`: the watermarks move only if something went. */
  function Trim(l: Log, kept: seq<Event>): Log {
    if |kept| >= |l.events| then l.(events := kept)
    else
      var gone := MaxRemoved(l.events, kept);
      var head := l.events[|l.events| - 1];
      var t := l.(events := kept, trimmed := if gone > l.trimmed then gone else l.trimmed);
      if head.seqNo >= l.headSeq then t.(headSeq := head.seqNo, headId := head.eventId) else t
  }

  lemma {:induction false} FromKeepsAll(es: seq<Event>, s: int)
    requires forall i :: 0 <= i < |es| ==> es[i].seqNo >= s
    ensures From(es, s) == es
  {
    if es != [] { FromKeepsAll(es[1..], s); }
  }

  /** In a log in order, what a trim keeps is a suffix. */
  lemma {:induction false} FromIsSuffix(es: seq<Event>, s: int) returns (k: nat)
    requires Increasing(es)
    ensures k <= |es| && From(es, s) == es[k..]
    ensures forall i :: k <= i < |es| ==> es[i].seqNo >= s
    ensures forall i :: 0 <= i < k ==> es[i].seqNo < s
  {
    if es == [] {
      k := 0;
    } else if es[0].seqNo >= s {
      k := 0;
      FromKeepsAll(es, s);
    } else {
      k := FromIsSuffix(es[1..], s);
      assert es[1..][k..] == es[k + 1..];
      assert forall i :: 0 < i < |es| ==> es[i] == es[1..][i - 1];
      k := k + 1;
    }
  }

  lemma TrimRetains(l: Log, hist: seq<Event>, n: nat)
    requires Retained(l, hist) && n <= |l.events|
    ensures Retained(Trim(l, l.events[|l.events| - n..]), hist)
  {
    var k := Gone(l, hist);
    var kept := l.events[|l.events| - n..];
    assert kept == hist[|hist| - n..];
    if n < |l.events| {
      assert l.events[|l.events| - n - 1] == hist[|hist| - n - 1];
      assert LastSeq(hist[..|hist| - n], 0) == hist[|hist| - n - 1].seqNo;
      if k > 0 { assert l.trimmed == hist[k - 1].seqNo; }
    }
  }

  function TrimBefore(l: Log, s: int): Log {
    Trim(l, From(l.events, s))
  }

  function TrimCount(l: Log, keep: nat): Log {
    Trim(l, Newest(l.events, keep))
  }

  lemma KeptExactly(es: seq<Event>, k: nat, s: int)
    requires k <= |es| && (forall i :: k <= i < |es| ==> es[i].seqNo >= s) && (forall i :: 0 <= i < k ==> es[i].seqNo < s)
    ensures forall e :: e in es[k..] <==> e in es && e.seqNo >= s
  {
    forall e | e in es && e.seqNo >= s ensures e in es[k..] {
      var i :| 0 <= i < |es| && es[i] == e;
      assert es[k..][i - k] == e;
    }
  }

  lemma TrimKeeps(l: Log, kept: seq<Event>)
    ensures Trim(l, kept).events == kept
  {
  }

  /** What a trim before `s` leaves are exactly the events from `s` on. */
  lemma TrimBeforeRetains(l: Log, hist: seq<Event>, s: int)
    requires Retained(l, hist)
    ensures Retained(TrimBefore(l, s), hist)
    ensures forall e :: e in TrimBefore(l, s).events <==> e in l.events && e.seqNo >= s
  {
    SuffixIsIncreasing(hist, Gone(l, hist));
    var k := FromIsSuffix(l.events, s);
    KeptExactly(l.events, k, s);
    TrimKeeps(l, From(l.events, s));
    TrimRetains(l, hist, |l.events| - k);
  }

  lemma SuffixIsIncreasing(es: seq<Event>, k: nat)
    requires Increasing(es) && k <= |es|
    ensures Increasing(es[k..])
  {
  }

  lemma TrimCountRetains(l: Log, hist: seq<Event>, keep: nat)
    requires Retained(l, hist)
    ensures Retained(TrimCount(l, keep), hist)
    ensures |TrimCount(l, keep).events| == if |l.events| < keep then |l.events| else keep
  {
    assert l.events[0..] == l.events;
    TrimRetains(l, hist, |Newest(l.events, keep)|);
  }

  datatype Bounds = Bounds(count: nat, minSeq: int, maxSeq: int, headSeq: int, headId: string, trimmed: int)

  function Max(a: int, b: int): int {
    if a >= b then a else b
  }

  function BoundsOf(l: Log): Bounds {
    var maxSeq := LastSeq(l.events, 0);
    Bounds(|l.events|, if l.events == [] then 0 else l.events[0].seqNo, maxSeq,
           Max(Max(maxSeq, l.trimmed), l.headSeq),
           if maxSeq > 0 then l.events[|l.events| - 1].eventId else if l.headSeq > 0 then l.headId else "",
           l.trimmed)
  }

  /** The reported head is the last event ever appended, also after a full trim. */
  lemma HeadSurvivesTrims(l: Log, hist: seq<Event>)
    requires Retained(l, hist)
    ensures BoundsOf(l).headSeq == LastSeq(hist, 0)
    ensures BoundsOf(l).headId == if hist == [] then "" else hist[|hist| - 1].eventId
    ensures BoundsOf(l).trimmed == LastSeq(hist[..Gone(l, hist)], 0)
  {
    if l.events != [] {
      assert l.events[|l.events| - 1] == hist[|hist| - 1];
    }
  }

  /** A decoded replay cursor. */
  datatype Cursor = Cursor(owner: Identity, seqNo: int, anchor: string, ns: Option<string>, types: set<EventType>)

  /** What every constructed cursor satisfies. */
  predicate WellFormed(c: Cursor) {
    c.seqNo >= 0 && (c.seqNo == 0 ==> c.anchor == "") && (c.seqNo > 0 ==> !Blank(c.anchor)) && Persistent(c.owner)
  }

  datatype CursorError =
    | NoPersistentIdentity | WrongSource | ReplacedHistory | ScopeMismatch | NonReconstructingType
    | StaleBase | AnchorMismatch

  function EventAt(es: seq<Event>, s: int): Option<Event> {
    if es == [] then None else if es[0].seqNo == s then Some(es[0]) else EventAt(es[1..], s)
  }

  /** The cursor checks against the source: identity, scope, compaction and trim watermarks,
      and the anchor event. */
  function CheckCursor(l: Log, src: Identity, c: Cursor, ns: Option<string>): Option<CursorError> {
    var b := BoundsOf(l);
    if !Persistent(src) then Some(NoPersistentIdentity)
    else if c.owner.mount != src.mount then Some(WrongSource)
    else if c.owner.replica != src.replica || c.owner.history != src.history then Some(ReplacedHistory)
    else if ns.Some? && ns != c.ns then Some(ScopeMismatch)
    else if !(c.types <= ALL_RECONSTRUCTING) then Some(NonReconstructingType)
    else if l.compacted > 0 && c.seqNo < l.compacted then Some(StaleBase)
    else if b.headSeq == 0 && l.trimmed == 0 then
      if c.seqNo > 0 then Some(StaleBase) else None
    else if c.seqNo < l.trimmed then Some(StaleBase)
    else if c.seqNo > b.maxSeq then Some(StaleBase)
    else if c.seqNo > 0 then
      match EventAt(l.events, c.seqNo)
      case None => Some(StaleBase)
      case Some(e) => if e.eventId != c.anchor then Some(AnchorMismatch) else None
    else None
  }

  /** The cursor names this source and a reconstructing scope. */
  predicate Addressed(src: Identity, c: Cursor, ns: Option<string>) {
    Persistent(src) && c.owner == src && (ns.Some? ==> ns == c.ns) && c.types <= ALL_RECONSTRUCTING
  }

  lemma {:induction false} EventAtFinds(es: seq<Event>, s: int)
    requires Increasing(es)
    ensures EventAt(es, s).Some? <==> exists i :: 0 <= i < |es| && es[i].seqNo == s
    ensures forall i :: 0 <= i < |es| && es[i].seqNo == s ==> EventAt(es, s) == Some(es[i])
  {
    if es != [] {
      EventAtFinds(es[1..], s);
      assert forall i :: 0 < i < |es| ==> es[i] == es[1..][i - 1];
      if i :| 0 <= i < |es| && es[i].seqNo == s { if i > 0 { assert es[1..][i - 1].seqNo == s; } }
    }
  }

  /** The cursor stands on the event with index at least `k`. */
  ghost predicate Anchored(es: seq<Event>, k: nat, c: Cursor) {
    exists i :: k <= i < |es| && es[i].seqNo == c.seqNo && es[i].eventId == c.anchor
  }

  lemma AnchoredInSuffix(hist: seq<Event>, k: nat, c: Cursor)
    requires k <= |hist|
    ensures Anchored(hist[k..], 0, c) <==> Anchored(hist, k, c)
  {
    if Anchored(hist[k..], 0, c) {
      var i :| 0 <= i < |hist[k..]| && hist[k..][i].seqNo == c.seqNo && hist[k..][i].eventId == c.anchor;
      assert hist[k + i] == hist[k..][i];
    }
    if Anchored(hist, k, c) {
      var i :| k <= i < |hist| && hist[i].seqNo == c.seqNo && hist[i].eventId == c.anchor;
      assert hist[k..][i - k] == hist[i];
    }
  }

  lemma AnchorCheck(es: seq<Event>, c: Cursor)
    requires Increasing(es)
    ensures Anchored(es, 0, c) <==> EventAt(es, c.seqNo).Some? && EventAt(es, c.seqNo).value.eventId == c.anchor
  {
    EventAtFinds(es, c.seqNo);
  }

  /** A cursor that names this source is accepted exactly if it stands at the start of a history
      of which nothing was removed, or on an event that is still retained. In particular the
      compaction watermark never refuses a cursor that the trim watermark accepts. */
  lemma CursorAcceptedExactly(l: Log, hist: seq<Event>, src: Identity, c: Cursor, ns: Option<string>)
    requires Retained(l, hist) && WellFormed(c) && Addressed(src, c, ns)
    ensures CheckCursor(l, src, c, ns).None? <==>
            (c.seqNo == 0 && Gone(l, hist) == 0) || (c.seqNo > 0 && Anchored(hist, Gone(l, hist), c))
  {
    var k := Gone(l, hist);
    assert Increasing(l.events);
    AnchoredInSuffix(hist, k, c);
    AnchorCheck(l.events, c);
    HeadSurvivesTrims(l, hist);
    if k > 0 { assert l.trimmed == hist[k - 1].seqNo > 0; }
    if Anchored(l.events, 0, c) {
      var i :| 0 <= i < |l.events| && l.events[i].seqNo == c.seqNo && l.events[i].eventId == c.anchor;
      InsideBounds(l, hist, i);
    }
    CheckOutcome(l, src, c, ns, Anchored(l.events, 0, c));
  }

  /** The outcome of the checks in terms of the watermarks and the anchor. */
  lemma CheckOutcome(l: Log, src: Identity, c: Cursor, ns: Option<string>, anchored: bool)
    requires WellFormed(c) && Addressed(src, c, ns)
    requires anchored <==> EventAt(l.events, c.seqNo).Some? && EventAt(l.events, c.seqNo).value.eventId == c.anchor
    requires anchored ==> l.trimmed < c.seqNo <= BoundsOf(l).maxSeq
    requires 0 <= l.compacted <= l.trimmed && 0 <= l.headSeq && 0 <= BoundsOf(l).maxSeq
    ensures CheckCursor(l, src, c, ns).None? <==> (c.seqNo == 0 && l.trimmed == 0) || (c.seqNo > 0 && anchored)
  {
  }

  lemma InsideBounds(l: Log, hist: seq<Event>, i: nat)
    requires Retained(l, hist) && i < |l.events|
    ensures l.trimmed < l.events[i].seqNo <= BoundsOf(l).maxSeq
  {
    var k := Gone(l, hist);
    assert l.events[i] == hist[k + i];
    if k > 0 { assert l.trimmed == hist[k - 1].seqNo; }
    assert l.events[|l.events| - 1] == hist[|hist| - 1];
  }

  /** The events a scoped query returns after a position. */
  function InScope(es: seq<Event>, ns: Option<string>, after: int): seq<Event> {
    if es == [] then []
    else
      var n := |es| - 1;
      if es[n].seqNo > after && (ns.Some? ==> es[n].ns == ns.value)
      then InScope(es[..n], ns, after) + [es[n]] else InScope(es[..n], ns, after)
  }

  lemma {:induction false} InScopeSkipsPrefix(es: seq<Event>, k: nat, ns: Option<string>, after: int)
    requires k <= |es| && forall i :: 0 <= i < k ==> es[i].seqNo <= after
    ensures InScope(es, ns, after) == InScope(es[k..], ns, after)
  {
    if |es| == k {
      assert es[k..] == [];
      if k > 0 {
        InScopeSkipsPrefix(es[..k - 1], k - 1, ns, after);
        assert es[..k - 1][k - 1..] == [];
      }
    } else {
      var n := |es| - 1;
      InScopeSkipsPrefix(es[..n], k, ns, after);
      assert es[k..][..|es[k..]| - 1] == es[..n][k..];
    }
  }

  /** The window behind an accepted cursor is complete: trimming and compaction have taken none
      of the events after it. */
  lemma WindowIsComplete(l: Log, hist: seq<Event>, src: Identity, c: Cursor, want: Option<string>, ns: Option<string>)
    requires Retained(l, hist) && WellFormed(c) && Addressed(src, c, want)
    requires CheckCursor(l, src, c, want).None?
    ensures InScope(l.events, ns, c.seqNo) == InScope(hist, ns, c.seqNo)
  {
    CursorAcceptedExactly(l, hist, src, c, want);
    InScopeSkipsPrefix(hist, Gone(l, hist), ns, c.seqNo);
  }
}
