/** The task-sync outbox: concurrent hook processes stamp events, queue them and flush the queue
    into a server that adds each idempotency key once. Any process may crash at any point, and a
    reply may be lost after the server has acted on the request. */
module Outbox {

  import opened Records

  type Stream = string

  /** A stream with the credential that writes it. */
  datatype Scope = Scope(stream: Stream, token: string)

  type Key = (string, string, string, string)

  /** An add request. `text` is the event without its time of observation. */
  datatype Payload = Payload(list: string, client: string, session: string, eventId: string, text: string,
                             source: string, tags: seq<string>, observedAt: int)
  {
    /** The idempotency key is the hash of these. */
    function Key(): Key { (list, client, session, eventId) }
  }

  /** Equal but for the time of observation. */
  predicate SameEvent(a: Payload, b: Payload) {
    a.(observedAt := 0) == b.(observedAt := 0)
  }

  datatype Queued = Queued(rowid: nat, scope: Scope, payload: Payload)

  /** An add that took effect; `sent` is the queued row it came from. */
  datatype Fact = Fact(scope: Scope, payload: Payload, sent: nat)

  datatype Server = Server(ledger: map<(Scope, Key), Payload>, facts: seq<Fact>)

  datatype Reply = Saved | Conflict

  /** The server's rule: a new key takes effect, the same request again is answered from the
      ledger, another request under the key is refused. */
  function Add(s: Server, row: Queued): (Server, Reply) {
    var k := (row.scope, row.payload.Key());
    if k !in s.ledger then
      (Server(s.ledger[k := row.payload], s.facts + [Fact(row.scope, row.payload, row.rowid)]), Saved)
    else if s.ledger[k] == row.payload then (s, Saved)
    else (s, Conflict)
  }

  predicate Matches(f: Fact, row: Queued) {
    f.scope.stream == row.scope.stream && SameEvent(f.payload, row.payload)
  }

  /** The event of the row is on the server. */
  predicate Delivered(facts: seq<Fact>, row: Queued) {
    exists i :: 0 <= i < |facts| && Matches(facts[i], row)
  }

  // ---------- the tables ----------

  function Find(outbox: seq<Queued>, scope: Scope, key: Key): Option<Queued> {
    if outbox == [] then None
    else if outbox[0].scope == scope && outbox[0].payload.Key() == key then Some(outbox[0])
    else Find(outbox[1..], scope, key)
  }

  /** The first row of the stream; rows are kept in the order of their row ids. */
  function Head(outbox: seq<Queued>, stream: Stream): Option<Queued> {
    if outbox == [] then None
    else if outbox[0].scope.stream == stream then Some(outbox[0])
    else Head(outbox[1..], stream)
  }

  function Delete(outbox: seq<Queued>, rowid: nat, scope: Scope): seq<Queued> {
    if outbox == [] then []
    else if outbox[0].rowid == rowid && outbox[0].scope == scope then Delete(outbox[1..], rowid, scope)
    else [outbox[0]] + Delete(outbox[1..], rowid, scope)
  }

  /** The next stamp of a stream's clock. */
  function Stamp(clocks: map<Stream, int>, stream: Stream, now: int): int {
    var last := if stream in clocks then clocks[stream] else 0;
    if now > last + 1 then now else last + 1
  }

  // ---------- the system ----------

  /** Where a process is: it has stamped an event, has read the head of a stream, has been
      answered with a conflict, or may delete the row. */
  datatype Phase =
    | Idle
    | Stamped(stream: Stream, us: int)
    | Sending(row: Queued)
    | Refused(row: Queued)
    | Done(row: Queued)

  /** `queued` is the history of all rows ever inserted. */
  datatype State = State(
    outbox: seq<Queued>,
    next: nat,
    clocks: map<Stream, int>,
    server: Server,
    phases: map<nat, Phase>,
    queued: seq<Queued>)

  datatype Step =
    | Observe(p: nat, stream: Stream, now: int)
    | Enqueue(p: nat, token: string, payload: Payload)
    | ReadHead(p: nat, scope: Scope)
    | Send(p: nat, answered: bool)
    | Reject(p: nat)
    | CheckRetry(p: nat)
    | DeleteRow(p: nat)
    | Crash(p: nat)

  function PhaseOf(s: State, p: nat): Phase {
    if p in s.phases then s.phases[p] else Idle
  }

  function Enter(s: State, p: nat, phase: Phase): State {
    s.(phases := s.phases[p := phase])
  }

  /** A step that the process cannot take in its phase changes nothing. */
  function Next(s: State, e: Step): State {
    var phase := PhaseOf(s, e.p);
    match e
    case Observe(p, stream, now) =>
      if !phase.Idle? then s
      else
        var us := Stamp(s.clocks, stream, now);
        Enter(s.(clocks := s.clocks[stream := us]), p, Stamped(stream, us))
    case Enqueue(p, token, payload) =>
      if !phase.Stamped? then s
      else
        var stamped := payload.(observedAt := phase.us);
        var row := Queued(s.next, Scope(phase.stream, token), stamped);
        // A row with the key is either the same event or a conflict; neither inserts.
        if Find(s.outbox, row.scope, stamped.Key()).Some? then Enter(s, p, Idle)
        else Enter(s.(outbox := s.outbox + [row], next := s.next + 1, queued := s.queued + [row]), p, Idle)
    case ReadHead(p, scope) =>
      var head := Head(s.outbox, scope.stream);
      // A head that belongs to another credential is an error.
      if !phase.Idle? || head.None? || head.value.scope != scope then s
      else Enter(s, p, Sending(head.value))
    case Send(p, answered) =>
      if !phase.Sending? then s
      else
        var (server, reply) := Add(s.server, phase.row);
        var sent := s.(server := server);
        if !answered then Enter(sent, p, Idle)
        else if reply.Saved? then Enter(sent, p, Done(phase.row))
        else Enter(sent, p, Refused(phase.row))
    case Reject(p) =>
      // A conflict answered for another reason than the ledger.
      if !phase.Sending? then s else Enter(s, p, Refused(phase.row))
    case CheckRetry(p) =>
      if !phase.Refused? then s
      else Enter(s, p, if Delivered(s.server.facts, phase.row) then Done(phase.row) else Idle)
    case DeleteRow(p) =>
      if !phase.Done? then s
      else Enter(s.(outbox := Delete(s.outbox, phase.row.rowid, phase.row.scope)), p, Idle)
    case Crash(p) => Enter(s, p, Idle)
  }

  function Run(s: State, es: seq<Step>): State {
    if es == [] then s else Next(Run(s, es[..|es| - 1]), es[|es| - 1])
  }

  const INITIAL := State([], 1, map[], Server(map[], []), map[], [])

  // ---------- invariants ----------

  ghost predicate Ascending(rows: seq<Queued>) {
    forall i, j :: 0 <= i < j < |rows| ==> rows[i].rowid < rows[j].rowid
  }

  /** Row ids count the insertions. */
  ghost predicate Numbered(s: State) {
    s.next == |s.queued| + 1 && forall i :: 0 <= i < |s.queued| ==> s.queued[i].rowid == i + 1
  }

  /** The outbox holds queued rows in order. */
  ghost predicate Ordered(s: State) {
    (forall row :: row in s.outbox ==> row in s.queued) && Ascending(s.outbox)
  }

  /** Every event ever queued is pending or delivered. */
  ghost predicate NothingLost(s: State) {
    forall i :: 0 <= i < |s.queued| ==> s.queued[i] in s.outbox || Delivered(s.server.facts, s.queued[i])
  }

  /** All events queued before the row in its stream are among the facts. */
  ghost predicate EarlierDelivered(queued: seq<Queued>, facts: seq<Fact>, stream: Stream, rowid: nat) {
    forall i :: 0 <= i < |queued| && queued[i].scope.stream == stream && queued[i].rowid < rowid ==>
      Delivered(facts, queued[i])
  }

  /** A row that a process sends was queued and was the head of its stream; a row that it may delete
      is on the server. */
  ghost predicate PhaseHolds(s: State, phase: Phase) {
    match phase
    case Idle => true
    case Stamped(stream, us) => stream in s.clocks && us <= s.clocks[stream]
    case Sending(row) => row in s.queued && EarlierDelivered(s.queued, s.server.facts, row.scope.stream, row.rowid)
    case Refused(row) => row in s.queued
    case Done(row) => row in s.queued && Delivered(s.server.facts, row)
  }

  ghost predicate PhasesHold(s: State) {
    forall p :: p in s.phases ==> PhaseHolds(s, s.phases[p])
  }

  function LedgerKey(f: Fact): (Scope, Key) {
    (f.scope, f.payload.Key())
  }

  ghost predicate Recorded(server: Server, k: (Scope, Key)) {
    k in server.ledger && exists i :: 0 <= i < |server.facts| &&
                                      LedgerKey(server.facts[i]) == k && server.facts[i].payload == server.ledger[k]
  }

  /** The facts are what the ledger says, each key of a scope once. */
  ghost predicate OnceEach(server: Server) {
    (forall k :: k in server.ledger ==> Recorded(server, k)) &&
    (forall i :: 0 <= i < |server.facts| ==> LedgerKey(server.facts[i]) in server.ledger) &&
    forall i, j :: 0 <= i < j < |server.facts| ==> LedgerKey(server.facts[i]) != LedgerKey(server.facts[j])
  }

  /** Every fact is a queued row as it was queued. */
  ghost predicate FromQueue(s: State) {
    forall j :: 0 <= j < |s.server.facts| ==>
      var f := s.server.facts[j];
      1 <= f.sent <= |s.queued| && s.queued[f.sent - 1] == Queued(f.sent, f.scope, f.payload)
  }

  /** When an add took effect, all events queued before it in its stream were on the server. */
  ghost predicate AllInOrder(queued: seq<Queued>, facts: seq<Fact>) {
    forall j :: 0 <= j < |facts| ==> EarlierDelivered(queued, facts[..j], facts[j].scope.stream, facts[j].sent)
  }

  ghost predicate TablesHold(s: State) {
    Numbered(s) && Ordered(s) && NothingLost(s)
  }

  ghost predicate FactsHold(s: State) {
    OnceEach(s.server) && FromQueue(s) && AllInOrder(s.queued, s.server.facts)
  }

  ghost predicate Holds(s: State) {
    TablesHold(s) && PhasesHold(s) && FactsHold(s)
  }

  // ---------- the tables' operations ----------

  lemma {:induction false} HeadIsFirst(outbox: seq<Queued>, stream: Stream)
    requires Ascending(outbox)
    ensures var h := Head(outbox, stream);
            (h.Some? ==> h.value in outbox && h.value.scope.stream == stream) &&
            (forall x :: x in outbox && x.scope.stream == stream ==> h.Some? && h.value.rowid <= x.rowid)
  {
    if outbox != [] && outbox[0].scope.stream != stream {
      HeadIsFirst(outbox[1..], stream);
    }
  }

  lemma {:induction false} DeleteIs(outbox: seq<Queued>, rowid: nat, scope: Scope, x: Queued)
    ensures x in Delete(outbox, rowid, scope) <==> x in outbox && !(x.rowid == rowid && x.scope == scope)
  {
    if outbox != [] {
      DeleteIs(outbox[1..], rowid, scope, x);
    }
  }

  lemma {:induction false} DeleteAscends(outbox: seq<Queued>, rowid: nat, scope: Scope)
    requires Ascending(outbox)
    ensures Ascending(Delete(outbox, rowid, scope))
  {
    if outbox != [] {
      DeleteAscends(outbox[1..], rowid, scope);
      var rest := Delete(outbox[1..], rowid, scope);
      forall j | 0 <= j < |rest| ensures outbox[0].rowid < rest[j].rowid {
        DeleteIs(outbox[1..], rowid, scope, rest[j]);
        assert rest[j] in outbox[1..];
      }
    }
  }

  lemma DeliveredGrows(facts: seq<Fact>, more: seq<Fact>, row: Queued)
    requires Delivered(facts, row) && facts <= more
    ensures Delivered(more, row)
  {
    var i :| 0 <= i < |facts| && Matches(facts[i], row);
    assert more[i] == facts[i];
  }

  // ---------- every step keeps the invariants ----------

  /** What only ever grows. */
  ghost predicate Grows(s: State, t: State) {
    s.queued <= t.queued && s.server.facts <= t.server.facts &&
    forall c :: c in s.clocks ==> c in t.clocks && s.clocks[c] <= t.clocks[c]
  }

  lemma PhaseStillHolds(s: State, t: State, phase: Phase)
    requires Numbered(s) && Numbered(t) && Grows(s, t) && PhaseHolds(s, phase)
    ensures PhaseHolds(t, phase)
  {
    match phase
    case Sending(row) =>
      var n :| 0 <= n < |s.queued| && s.queued[n] == row;
      assert t.queued[n] == row;
      forall i | 0 <= i < |t.queued| && t.queued[i].scope.stream == row.scope.stream && t.queued[i].rowid < row.rowid
        ensures Delivered(t.server.facts, t.queued[i])
      {
        assert i < n && t.queued[i] == s.queued[i];
        DeliveredGrows(s.server.facts, t.server.facts, s.queued[i]);
      }
    case Done(row) =>
      DeliveredGrows(s.server.facts, t.server.facts, row);
    case _ =>
  }

  /** The other processes' phases hold on. */
  lemma PhasesStillHold(s: State, t: State, p: nat)
    requires Numbered(s) && Numbered(t) && Grows(s, t) && PhasesHold(s)
    requires p in t.phases && t.phases == s.phases[p := t.phases[p]] && PhaseHolds(t, t.phases[p])
    ensures PhasesHold(t)
  {
    forall q | q in t.phases ensures PhaseHolds(t, t.phases[q]) {
      if q != p { PhaseStillHolds(s, t, s.phases[q]); }
    }
  }

  lemma EnterHolds(s: State, t: State, p: nat, phase: Phase)
    requires Holds(s) && Grows(s, t) && t == Enter(s.(clocks := t.clocks), p, phase) && PhaseHolds(t, phase)
    ensures Holds(t)
  {
    PhasesStillHold(s, t, p);
  }

  lemma RowIs(s: State, row: Queued)
    requires Numbered(s) && row in s.queued
    ensures 1 <= row.rowid <= |s.queued| && s.queued[row.rowid - 1] == row
  {
    var i :| 0 <= i < |s.queued| && s.queued[i] == row;
  }

  lemma EnqueueLosesNothing(s: State, t: State, row: Queued)
    requires NothingLost(s) && t.queued == s.queued + [row] && t.outbox == s.outbox + [row] && t.server == s.server
    ensures NothingLost(t)
  {
    forall i | 0 <= i < |t.queued| ensures t.queued[i] in t.outbox || Delivered(t.server.facts, t.queued[i]) {
      if i < |s.queued| { assert t.queued[i] == s.queued[i]; } else { assert t.outbox[|s.outbox|] == row; }
    }
  }

  lemma EnqueueKeepsOrder(s: State, t: State, row: Queued)
    requires Numbered(s) && Ordered(s) && row.rowid == s.next
    requires t.queued == s.queued + [row] && t.outbox == s.outbox + [row]
    ensures Ordered(t)
  {
    forall x | x in s.outbox ensures x.rowid < row.rowid && x in t.queued {
      RowIs(s, x);
      assert t.queued[x.rowid - 1] == x;
    }
    assert row == t.queued[|s.queued|];
  }

  /** A later row is not earlier than anything sent. */
  lemma EnqueueStaysInOrder(s: State, t: State, row: Queued)
    requires Numbered(s) && FromQueue(s) && AllInOrder(s.queued, s.server.facts) && row.rowid == s.next
    requires t.queued == s.queued + [row] && t.server == s.server
    ensures FromQueue(t) && AllInOrder(t.queued, t.server.facts)
  {
    forall j | 0 <= j < |t.server.facts|
      ensures EarlierDelivered(t.queued, t.server.facts[..j], t.server.facts[j].scope.stream, t.server.facts[j].sent)
    {
      assert EarlierDelivered(s.queued, s.server.facts[..j], s.server.facts[j].scope.stream, s.server.facts[j].sent);
      assert s.server.facts[j].sent < row.rowid;
    }
  }

  lemma EnqueueHolds(s: State, p: nat, row: Queued)
    requires Holds(s) && row.rowid == s.next
    ensures Holds(Enter(s.(outbox := s.outbox + [row], next := s.next + 1, queued := s.queued + [row]), p, Idle))
  {
    var t := Enter(s.(outbox := s.outbox + [row], next := s.next + 1, queued := s.queued + [row]), p, Idle);
    PhasesStillHold(s, t, p);
    EnqueueLosesNothing(s, t, row);
    EnqueueKeepsOrder(s, t, row);
    EnqueueStaysInOrder(s, t, row);
  }

  /** What was queued before the head of a stream is no longer in the outbox. */
  lemma BeforeHead(s: State, stream: Stream)
    requires Ordered(s) && NothingLost(s) && Head(s.outbox, stream).Some?
    ensures EarlierDelivered(s.queued, s.server.facts, stream, Head(s.outbox, stream).value.rowid)
  {
    HeadIsFirst(s.outbox, stream);
  }

  lemma ReadHolds(s: State, p: nat, stream: Stream)
    requires Holds(s) && Head(s.outbox, stream).Some?
    ensures Holds(Enter(s, p, Sending(Head(s.outbox, stream).value)))
  {
    var row := Head(s.outbox, stream).value;
    HeadIsFirst(s.outbox, stream);
    BeforeHead(s, stream);
    EnterHolds(s, Enter(s, p, Sending(row)), p, Sending(row));
  }

  /** What the reply promises about the row. */
  ghost predicate Answered(server: Server, row: Queued, reply: Reply) {
    reply.Saved? ==> Delivered(server.facts, row)
  }

  ghost function FactOf(row: Queued): Fact {
    Fact(row.scope, row.payload, row.rowid)
  }

  lemma RecordedGrows(server: Server, after: Server, k: (Scope, Key))
    requires Recorded(server, k) && server.facts <= after.facts
    requires k in after.ledger && after.ledger[k] == server.ledger[k]
    ensures Recorded(after, k)
  {
    var i :| 0 <= i < |server.facts| && LedgerKey(server.facts[i]) == k && server.facts[i].payload == server.ledger[k];
    assert after.facts[i] == server.facts[i];
  }

  lemma NewKeyTakesEffect(server: Server, row: Queued)
    requires OnceEach(server) && (row.scope, row.payload.Key()) !in server.ledger
    ensures var after := Add(server, row).0;
            OnceEach(after) && after.facts == server.facts + [FactOf(row)] && Delivered(after.facts, row)
  {
    var after := Add(server, row).0;
    var k, n := (row.scope, row.payload.Key()), |server.facts|;
    assert after.facts[n] == FactOf(row) && Matches(after.facts[n], row) && LedgerKey(after.facts[n]) == k;
    forall l | l in after.ledger ensures Recorded(after, l) {
      if l != k { RecordedGrows(server, after, l); }
    }
    OtherKeys(server, after, k);
  }

  lemma OtherKeys(server: Server, after: Server, k: (Scope, Key))
    requires OnceEach(server) && k !in server.ledger && server.facts <= after.facts && |after.facts| == |server.facts| + 1
    requires LedgerKey(after.facts[|server.facts|]) == k && k in after.ledger
    requires forall l :: l in server.ledger ==> l in after.ledger
    ensures forall i :: 0 <= i < |after.facts| ==> LedgerKey(after.facts[i]) in after.ledger
    ensures forall i, j :: 0 <= i < j < |after.facts| ==> LedgerKey(after.facts[i]) != LedgerKey(after.facts[j])
  {
    forall i | 0 <= i < |server.facts|
      ensures LedgerKey(after.facts[i]) in after.ledger && LedgerKey(after.facts[i]) != k
    {
      assert after.facts[i] == server.facts[i];
    }
    forall i, j | 0 <= i < j < |server.facts| ensures LedgerKey(after.facts[i]) != LedgerKey(after.facts[j]) {
      assert after.facts[i] == server.facts[i] && after.facts[j] == server.facts[j];
    }
  }

  lemma AddIs(server: Server, row: Queued)
    requires OnceEach(server)
    ensures var (after, reply) := Add(server, row);
            OnceEach(after) && Answered(after, row, reply) &&
            (after.facts == server.facts || after.facts == server.facts + [FactOf(row)])
  {
    var (after, reply) := Add(server, row);
    var k := (row.scope, row.payload.Key());
    if k !in server.ledger {
      NewKeyTakesEffect(server, row);
    } else if reply.Saved? {
      assert Recorded(server, k);
      var i :| 0 <= i < |server.facts| && LedgerKey(server.facts[i]) == k && server.facts[i].payload == server.ledger[k];
      assert Matches(server.facts[i], row);
    }
  }

  lemma OneMoreInOrder(queued: seq<Queued>, facts: seq<Fact>, f: Fact)
    requires AllInOrder(queued, facts) && EarlierDelivered(queued, facts, f.scope.stream, f.sent)
    ensures AllInOrder(queued, facts + [f])
  {
    var more := facts + [f];
    forall j | 0 <= j < |more| ensures EarlierDelivered(queued, more[..j], more[j].scope.stream, more[j].sent) {
      if j < |facts| {
        assert more[..j] == facts[..j] && more[j] == facts[j];
      } else {
        assert more[..j] == facts;
      }
    }
  }

  lemma StillNothingLost(s: State, t: State)
    requires NothingLost(s) && t.queued == s.queued && t.outbox == s.outbox && s.server.facts <= t.server.facts
    ensures NothingLost(t)
  {
    forall i | 0 <= i < |t.queued| && t.queued[i] !in t.outbox ensures Delivered(t.server.facts, t.queued[i]) {
      DeliveredGrows(s.server.facts, t.server.facts, t.queued[i]);
    }
  }

  lemma SendHolds(s: State, p: nat, row: Queued, phase: Phase)
    requires Holds(s) && PhaseHolds(s, Sending(row))
    requires phase == Idle || phase == Refused(row) || (phase == Done(row) && Add(s.server, row).1.Saved?)
    ensures Holds(Enter(s.(server := Add(s.server, row).0), p, phase))
  {
    var server := Add(s.server, row).0;
    var t := Enter(s.(server := server), p, phase);
    AddIs(s.server, row);
    PhasesStillHold(s, t, p);
    assert TablesHold(t) by {
      StillNothingLost(s, t);
    }
    assert FactsHold(t) by {
      RowIs(s, row);
      OneMoreInOrder(s.queued, s.server.facts, FactOf(row));
      OneMoreFromQueue(s, t, row);
    }
  }

  lemma OneMoreFromQueue(s: State, t: State, row: Queued)
    requires FromQueue(s) && t.queued == s.queued && 1 <= row.rowid <= |s.queued| && s.queued[row.rowid - 1] == row
    requires t.server.facts == s.server.facts || t.server.facts == s.server.facts + [FactOf(row)]
    ensures FromQueue(t)
  {
  }

  lemma DeleteLosesNothing(s: State, t: State, row: Queued)
    requires Numbered(s) && NothingLost(s) && row in s.queued && Delivered(s.server.facts, row)
    requires t.queued == s.queued && t.server == s.server && t.outbox == Delete(s.outbox, row.rowid, row.scope)
    ensures NothingLost(t)
  {
    RowIs(s, row);
    forall i | 0 <= i < |t.queued| && t.queued[i] !in t.outbox ensures Delivered(t.server.facts, t.queued[i]) {
      DeleteIs(s.outbox, row.rowid, row.scope, t.queued[i]);
    }
  }

  lemma DeleteHolds(s: State, p: nat, row: Queued)
    requires Holds(s) && PhaseHolds(s, Done(row))
    ensures Holds(Enter(s.(outbox := Delete(s.outbox, row.rowid, row.scope)), p, Idle))
  {
    var t := Enter(s.(outbox := Delete(s.outbox, row.rowid, row.scope)), p, Idle);
    PhasesStillHold(s, t, p);
    assert TablesHold(t) by {
      DeleteLosesNothing(s, t, row);
      DeleteKeepsOrder(s, t, row);
    }
    SameFacts(s, t);
  }

  lemma SameFacts(s: State, t: State)
    requires FactsHold(s) && t.queued == s.queued && t.server == s.server
    ensures FactsHold(t)
  {
  }

  lemma DeleteKeepsOrder(s: State, t: State, row: Queued)
    requires Ordered(s) && t.queued == s.queued && t.outbox == Delete(s.outbox, row.rowid, row.scope)
    ensures Ordered(t)
  {
    DeleteAscends(s.outbox, row.rowid, row.scope);
    forall x | x in t.outbox ensures x in t.queued {
      DeleteIs(s.outbox, row.rowid, row.scope, x);
    }
  }

  lemma NextHolds(s: State, e: Step)
    requires Holds(s)
    ensures Holds(Next(s, e))
  {
    var t, phase := Next(s, e), PhaseOf(s, e.p);
    assert PhaseHolds(s, phase);
    match e
    case Observe(p, stream, now) =>
      if phase.Idle? { EnterHolds(s, t, p, t.phases[p]); }
    case Enqueue(p, token, payload) =>
      if phase.Stamped? {
        var row := Queued(s.next, Scope(phase.stream, token), payload.(observedAt := phase.us));
        if Find(s.outbox, row.scope, row.payload.Key()).Some? { EnterHolds(s, t, p, Idle); } else { EnqueueHolds(s, p, row); }
      }
    case ReadHead(p, scope) =>
      if t != s { ReadHolds(s, p, scope.stream); }
    case Send(p, answered) =>
      if phase.Sending? { SendHolds(s, p, phase.row, t.phases[p]); }
    case Reject(p) =>
      if phase.Sending? { EnterHolds(s, t, p, t.phases[p]); }
    case CheckRetry(p) =>
      if phase.Refused? { EnterHolds(s, t, p, t.phases[p]); }
    case DeleteRow(p) =>
      if phase.Done? { DeleteHolds(s, p, phase.row); }
    case Crash(p) =>
      EnterHolds(s, t, p, Idle);
  }

  /** In every state of every run of any number of processes: each queued event is pending or on the
      server, each key took effect at most once, only delivered rows are about to be deleted, and
      no event took effect before an earlier one of its stream. */
  lemma {:induction false} EveryRunHolds(es: seq<Step>)
    ensures Holds(Run(INITIAL, es))
  {
    if es != [] {
      EveryRunHolds(es[..|es| - 1]);
      NextHolds(Run(INITIAL, es[..|es| - 1]), es[|es| - 1]);
    }
  }

  /** A row leaves the outbox only when its event is on the server. */
  lemma RowsLeaveDelivered(es: seq<Step>, e: Step, row: Queued)
    requires row in Run(INITIAL, es).outbox && row !in Next(Run(INITIAL, es), e).outbox
    ensures Delivered(Run(INITIAL, es).server.facts, row)
  {
    var s := Run(INITIAL, es);
    EveryRunHolds(es);
    NextHolds(s, e);
    assert row in s.queued;
    RowIs(s, row);
    assert Next(s, e).queued[row.rowid - 1] == row;
  }

  // ---------- times of observation ----------

  ghost predicate StampsDiffer(queued: seq<Queued>) {
    forall i, j :: 0 <= i < j < |queued| && queued[i].scope.stream == queued[j].scope.stream ==>
      queued[i].payload.observedAt != queued[j].payload.observedAt
  }

  ghost predicate Unused(queued: seq<Queued>, stream: Stream, us: int) {
    forall i :: 0 <= i < |queued| && queued[i].scope.stream == stream ==> queued[i].payload.observedAt != us
  }

  ghost predicate Reached(s: State, row: Queued) {
    row.scope.stream in s.clocks && row.payload.observedAt <= s.clocks[row.scope.stream]
  }

  /** A stream's clock is never behind a stamp it gave, and no stamp is given twice. */
  ghost predicate ClocksHold(s: State) {
    StampsDiffer(s.queued) && (forall i :: 0 <= i < |s.queued| ==> Reached(s, s.queued[i])) &&
    (forall p :: p in s.phases && s.phases[p].Stamped? ==>
      s.phases[p].stream in s.clocks && s.phases[p].us <= s.clocks[s.phases[p].stream] &&
      Unused(s.queued, s.phases[p].stream, s.phases[p].us)) &&
    forall p, q :: p in s.phases && q in s.phases && p != q && s.phases[p].Stamped? && s.phases[q].Stamped? ==>
      s.phases[p].stream == s.phases[q].stream ==> s.phases[p].us != s.phases[q].us
  }

  lemma ObserveKeepsClocks(s: State, p: nat, stream: Stream, now: int)
    requires ClocksHold(s) && (p in s.phases ==> s.phases[p].Idle?)
    ensures ClocksHold(Next(s, Observe(p, stream, now)))
  {
    var t := Next(s, Observe(p, stream, now));
    var us := Stamp(s.clocks, stream, now);
    assert t.queued == s.queued && t.phases == s.phases[p := Stamped(stream, us)] && t.clocks == s.clocks[stream := us];
    forall i | 0 <= i < |s.queued| ensures Reached(t, t.queued[i]) {
      assert Reached(s, s.queued[i]);
    }
    forall i | 0 <= i < |s.queued| && s.queued[i].scope.stream == stream ensures s.queued[i].payload.observedAt != us {
      assert Reached(s, s.queued[i]);
    }
  }

  lemma EnqueueKeepsClocks(s: State, t: State, p: nat, row: Queued)
    requires ClocksHold(s) && p in s.phases && s.phases[p] == Stamped(row.scope.stream, row.payload.observedAt)
    requires t.queued == s.queued + [row] && t.clocks == s.clocks && t.phases == s.phases[p := Idle]
    ensures ClocksHold(t)
  {
    forall i | 0 <= i < |t.queued| ensures Reached(t, t.queued[i]) {
      if i < |s.queued| { assert Reached(s, s.queued[i]); }
    }
    forall q | q in t.phases && t.phases[q].Stamped?
      ensures Unused(t.queued, t.phases[q].stream, t.phases[q].us)
    {
      assert Unused(s.queued, s.phases[q].stream, s.phases[q].us);
    }
    assert Unused(s.queued, row.scope.stream, row.payload.observedAt);
  }

  lemma OtherStepsKeepClocks(s: State, t: State, p: nat)
    requires ClocksHold(s) && t.queued == s.queued && t.clocks == s.clocks
    requires p in t.phases && t.phases == s.phases[p := t.phases[p]] && !t.phases[p].Stamped?
    ensures ClocksHold(t)
  {
    forall i | 0 <= i < |t.queued| ensures Reached(t, t.queued[i]) {
      assert Reached(s, s.queued[i]);
    }
  }

  lemma NextKeepsClocks(s: State, e: Step)
    requires ClocksHold(s)
    ensures ClocksHold(Next(s, e))
  {
    var t, phase := Next(s, e), PhaseOf(s, e.p);
    if t != s {
      match e
      case Observe(p, stream, now) =>
        ObserveKeepsClocks(s, p, stream, now);
      case Enqueue(p, token, payload) =>
        var row := Queued(s.next, Scope(phase.stream, token), payload.(observedAt := phase.us));
        if Find(s.outbox, row.scope, row.payload.Key()).Some? {
          OtherStepsKeepClocks(s, t, p);
        } else {
          EnqueueKeepsClocks(s, t, p, row);
        }
      case _ =>
        OtherStepsKeepClocks(s, t, e.p);
    }
  }

  lemma {:induction false} EveryRunKeepsClocks(es: seq<Step>)
    ensures ClocksHold(Run(INITIAL, es))
  {
    if es != [] {
      EveryRunKeepsClocks(es[..|es| - 1]);
      NextKeepsClocks(Run(INITIAL, es[..|es| - 1]), es[|es| - 1]);
    }
  }

  lemma FactTimesDiffer(s: State, i: nat, j: nat)
    requires OnceEach(s.server) && FromQueue(s) && StampsDiffer(s.queued) && i < j < |s.server.facts|
    requires s.server.facts[i].scope.stream == s.server.facts[j].scope.stream
    ensures s.server.facts[i].payload.observedAt != s.server.facts[j].payload.observedAt
  {
    var f, g := s.server.facts[i], s.server.facts[j];
    assert LedgerKey(f) != LedgerKey(g);
    assert s.queued[f.sent - 1] == Queued(f.sent, f.scope, f.payload);
    assert s.queued[g.sent - 1] == Queued(g.sent, g.scope, g.payload);
  }

  /** No two facts of a stream carry the same time of observation. */
  lemma FactsHaveTheirOwnTimes(es: seq<Step>, i: nat, j: nat)
    requires var facts := Run(INITIAL, es).server.facts;
             i < j < |facts| && facts[i].scope.stream == facts[j].scope.stream
    ensures var facts := Run(INITIAL, es).server.facts; facts[i].payload.observedAt != facts[j].payload.observedAt
  {
    EveryRunHolds(es);
    EveryRunKeepsClocks(es);
    FactTimesDiffer(Run(INITIAL, es), i, j);
  }

  // ---------- one process by itself ----------

  class Daemon {
    var server: Server

    constructor ()
      ensures server == Server(map[], [])
    {
      server := Server(map[], []);
    }

    method AddRow(row: Queued) returns (reply: Reply)
      requires OnceEach(server)
      modifies this
      ensures (server, reply) == Add(old(server), row) && OnceEach(server)
      ensures reply.Saved? ==> Delivered(server.facts, row)
      ensures old(server).facts <= server.facts
    {
      AddIs(server, row);
      var (after, r) := Add(server, row);
      server := after;
      reply := r;
    }
  }

  /** What becomes of a request: answered, answered but the reply lost, or not received. */
  datatype Delivery = Reply | Lost | Unreachable

  datatype FlushEnd = Drained | OtherOwner | Failed

  /** The rows that are gone are on the server, and only rows of the stream are gone. */
  ghost predicate Flushed(before: seq<Queued>, after: seq<Queued>, stream: Stream, facts: seq<Fact>) {
    (forall x :: x in after ==> x in before) &&
    forall x :: x in before && x !in after ==> x.scope.stream == stream && Delivered(facts, x)
  }

  lemma FlushedOneMore(before: seq<Queued>, now: seq<Queued>, after: seq<Queued>, row: Queued,
                       facts: seq<Fact>, more: seq<Fact>)
    requires Flushed(before, now, row.scope.stream, facts) && Ascending(now) && row in now
    requires facts <= more && Delivered(more, row) && after == Delete(now, row.rowid, row.scope)
    ensures Flushed(before, after, row.scope.stream, more) && Ascending(after) && |after| == |now| - 1
  {
    DeleteAscends(now, row.rowid, row.scope);
    DeleteOne(now, row);
    forall x ensures x in after <==> x in now && x != row {
      DeleteIs(now, row.rowid, row.scope, x);
    }
    forall x | x in before && x !in after ensures x.scope.stream == row.scope.stream && Delivered(more, x) {
      if x != row { DeliveredGrows(facts, more, x); }
    }
  }

  lemma {:induction false} DeleteOne(outbox: seq<Queued>, row: Queued)
    requires Ascending(outbox) && row in outbox
    ensures |Delete(outbox, row.rowid, row.scope)| == |outbox| - 1
  {
    if outbox[0] == row {
      DeleteNone(outbox[1..], row);
    } else {
      var i :| 0 <= i < |outbox| && outbox[i] == row;
      DeleteOne(outbox[1..], row);
    }
  }

  lemma {:induction false} DeleteNone(outbox: seq<Queued>, row: Queued)
    requires forall i :: 0 <= i < |outbox| ==> row.rowid < outbox[i].rowid
    ensures Delete(outbox, row.rowid, row.scope) == outbox
  {
    if outbox != [] {
      DeleteNone(outbox[1..], row);
    }
  }

  datatype EnqueueError = KeyConflict

  class TaskState {
    var outbox: seq<Queued>
    var next: nat
    var clocks: map<Stream, int>

    constructor ()
      ensures outbox == [] && next == 1 && clocks == map[] && Valid()
    {
      outbox, next, clocks := [], 1, map[];
    }

    ghost predicate Valid()
      reads this
    {
      Ascending(outbox) && forall x :: x in outbox ==> x.rowid < next
    }

    /** The stream's clock never repeats a stamp nor goes back, whatever the wall clock does. */
    method ObservedAt(stream: Stream, now: int) returns (us: int)
      modifies this`clocks
      ensures us >= now && (stream in old(clocks) ==> us > old(clocks)[stream])
      ensures us == Stamp(old(clocks), stream, now) && clocks == old(clocks)[stream := us]
    {
      var last := if stream in clocks then clocks[stream] else 0;
      us := if now > last + 1 then now else last + 1;
      clocks := clocks[stream := us];
    }

    /** The same event under a queued key is dropped, another event is refused. */
    method Enqueue(scope: Scope, payload: Payload) returns (r: Result<bool, EnqueueError>)
      requires Valid()
      modifies this`outbox, this`next
      ensures Valid()
      ensures Find(old(outbox), scope, payload.Key()).None? ==> r == Ok(true)
      ensures r == Ok(true) ==>
                Find(old(outbox), scope, payload.Key()).None? && next == old(next) + 1 &&
                outbox == old(outbox) + [Queued(old(next), scope, payload)]
      ensures r != Ok(true) ==> outbox == old(outbox) && next == old(next)
      ensures r == Ok(false) <==>
                var found := Find(old(outbox), scope, payload.Key());
                found.Some? && SameEvent(found.value.payload, payload)
    {
      var found := Find(outbox, scope, payload.Key());
      if found.Some? {
        return if SameEvent(found.value.payload, payload) then Ok(false) else Err(KeyConflict);
      }
      outbox := outbox + [Queued(next, scope, payload)];
      next := next + 1;
      r := Ok(true);
    }

    /** The flush loop; `net` says what becomes of each request. */
    method Flush(daemon: Daemon, scope: Scope, net: nat -> Delivery) returns (flushed: nat, end: FlushEnd)
      requires Valid() && OnceEach(daemon.server)
      modifies this`outbox, daemon
      ensures Valid() && OnceEach(daemon.server) && old(daemon.server).facts <= daemon.server.facts
      ensures Flushed(old(outbox), outbox, scope.stream, daemon.server.facts)
      ensures flushed == |old(outbox)| - |outbox|
      ensures end.Drained? ==> forall x :: x in outbox ==> x.scope.stream != scope.stream
      ensures end.OtherOwner? ==>
                Head(outbox, scope.stream).Some? && Head(outbox, scope.stream).value.scope != scope
    {
      flushed := 0;
      while true
        invariant Valid() && OnceEach(daemon.server) && old(daemon.server).facts <= daemon.server.facts
        invariant Flushed(old(outbox), outbox, scope.stream, daemon.server.facts)
        invariant flushed == |old(outbox)| - |outbox|
        decreases |outbox|
      {
        HeadIsFirst(outbox, scope.stream);
        var head := Head(outbox, scope.stream);
        if head.None? { return flushed, Drained; }
        var row := head.value;
        if row.scope != scope { return flushed, OtherOwner; }
        if net(flushed).Unreachable? { return flushed, Failed; }
        ghost var facts := daemon.server.facts;
        var reply := daemon.AddRow(row);
        if net(flushed).Lost? {
          FlushedStill(old(outbox), outbox, scope.stream, facts, daemon.server.facts);
          return flushed, Failed;
        }
        if reply.Conflict? && !Delivered(daemon.server.facts, row) {
          FlushedStill(old(outbox), outbox, scope.stream, facts, daemon.server.facts);
          return flushed, Failed;
        }
        FlushedOneMore(old(outbox), outbox, Delete(outbox, row.rowid, row.scope), row, facts, daemon.server.facts);
        KeepsBelow(outbox, row, next);
        outbox := Delete(outbox, row.rowid, row.scope);
        flushed := flushed + 1;
      }
    }
  }

  lemma FlushedStill(before: seq<Queued>, after: seq<Queued>, stream: Stream, facts: seq<Fact>, more: seq<Fact>)
    requires Flushed(before, after, stream, facts) && facts <= more
    ensures Flushed(before, after, stream, more)
  {
    forall x | x in before && x !in after ensures Delivered(more, x) {
      DeliveredGrows(facts, more, x);
    }
  }

  lemma KeepsBelow(outbox: seq<Queued>, row: Queued, next: nat)
    requires forall x :: x in outbox ==> x.rowid < next
    ensures forall x :: x in Delete(outbox, row.rowid, row.scope) ==> x.rowid < next
  {
    forall x | x in Delete(outbox, row.rowid, row.scope) ensures x.rowid < next {
      DeleteIs(outbox, row.rowid, row.scope, x);
    }
  }
}
