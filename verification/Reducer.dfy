/** The task-sync reducer: rebuilding the tasks of two clients from their shared event history. */
module Reducer {

  import opened Records
  import Text

  type TaskId = string

  datatype Client = Claude | Codex

  /** The id that a client's session gave to a task. */
  datatype Alias = Alias(session: string, native: string)

  datatype Task = Task(
    id: TaskId,
    client: Client,
    status: string,
    fields: map<string, string>,
    position: int,
    aliases: seq<Alias>,
    blocks: seq<TaskId>,
    blockedBy: seq<TaskId>,
    source: string)

  datatype PlanItem = PlanItem(id: TaskId, step: string, status: string, position: int)

  datatype Action =
    | ReplacePlan(plan: seq<PlanItem>)
    | Create(id: TaskId, native: string, taskSession: Option<string>, status: string, fields: map<string, string>,
             blocks: seq<TaskId>, blockedBy: seq<TaskId>)
    | Update(id: TaskId, nativeId: Option<string>, newStatus: Option<string>, changes: map<string, string>,
             addBlocks: Option<seq<string>>, addBlockedBy: Option<seq<string>>)
    | Unknown

  /** A stored event; `observedAt` is missing in events of the first integration. */
  datatype Event = Event(observedAt: Option<int>, session: Option<string>, source: string, action: Action)

  datatype Error = TooMany | DuplicateTime | BadPlanItem | BadStatus | NoSession | UnknownTask | AmbiguousTask | BadAction

  const HISTORY_LIMIT := 1000

  /** The tasks in the order of their first insertion, and the next position of a Claude task. */
  datatype Board = Board(tasks: seq<Task>, next: nat)

  predicate Active(status: string) {
    status == "pending" || status == "in_progress"
  }

  predicate KnownStatus(status: string) {
    Active(status) || status == "completed"
  }

  // ---------- the ordered dictionary of tasks ----------

  function Find(tasks: seq<Task>, id: TaskId): Option<Task> {
    if tasks == [] then None
    else if tasks[0].id == id then Some(tasks[0])
    else Find(tasks[1..], id)
  }

  /** An existing key keeps its place. */
  function Put(tasks: seq<Task>, t: Task): seq<Task> {
    if tasks == [] then [t]
    else if tasks[0].id == t.id then [t] + tasks[1..]
    else [tasks[0]] + Put(tasks[1..], t)
  }

  function Remove(tasks: seq<Task>, id: TaskId): seq<Task> {
    if tasks == [] then []
    else if tasks[0].id == id then tasks[1..]
    else [tasks[0]] + Remove(tasks[1..], id)
  }

  /** The tasks of one client. */
  function Part(tasks: seq<Task>, c: Client): seq<Task> {
    if tasks == [] then []
    else if tasks[0].client == c then [tasks[0]] + Part(tasks[1..], c)
    else Part(tasks[1..], c)
  }

  // ---------- names ----------

  predicate Given(s: Option<string>) {
    s.Some? && s.value != ""
  }

  function Reference(session: string, native: string): TaskId {
    "claude:" + session + ":" + native
  }

  /** The place of the first colon. */
  function Colon(s: string): nat {
    if s == "" || s[0] == ':' then 0 else 1 + Colon(s[1..])
  }

  /** The session of an event, or else the one in a task id of the form claude:session:native. */
  function SessionOf(session: Option<string>, id: TaskId): Option<string> {
    if Given(session) then session
    else if |id| >= 7 && id[..7] == "claude:" then
      var k := Colon(id[7..]);
      if 0 < k < |id| - 7 then Some(id[7..][..k]) else None
    else None
  }

  // ---------- applying one event ----------

  function PlanTask(item: PlanItem, source: string): Task {
    Task(item.id, Codex, item.status, map["subject" := item.step], item.position, [], [], [], source)
  }

  predicate ValidItem(item: PlanItem) {
    KnownStatus(item.status) && item.position >= 0
  }

  predicate ValidPlan(plan: seq<PlanItem>) {
    forall i :: 0 <= i < |plan| ==> ValidItem(plan[i])
  }

  function PutPlan(tasks: seq<Task>, plan: seq<PlanItem>, source: string): seq<Task> {
    if plan == [] then tasks
    else Put(PutPlan(tasks, plan[..|plan| - 1], source), PlanTask(plan[|plan| - 1], source))
  }

  predicate KeepsPosition(existing: Option<Task>) {
    existing.Some? && existing.value.client.Claude?
  }

  /** A created task; recreating a task keeps its position, its aliases and its dependencies. */
  function CreatedTask(existing: Option<Task>, next: nat, e: Event, session: string): Task
    requires e.action.Create?
  {
    var a := e.action;
    var alias := Alias(session, a.native);
    var had := if existing.Some? then existing.value.aliases else [];
    Task(a.id, Claude, a.status, a.fields,
         if KeepsPosition(existing) then existing.value.position else next,
         if alias in had then had else had + [alias],
         if existing.Some? then existing.value.blocks else a.blocks,
         if existing.Some? then existing.value.blockedBy else a.blockedBy,
         e.source)
  }

  function Created(b: Board, e: Event): Result<Board, Error>
    requires e.action.Create?
  {
    var a := e.action;
    var existing := Find(b.tasks, a.id);
    if !KnownStatus(a.status) then Err(BadStatus)
    else
      var session := if Given(a.taskSession) then a.taskSession else SessionOf(e.session, a.id);
      if session.None? then Err(NoSession)
      else Ok(Board(Put(b.tasks, CreatedTask(existing, b.next, e, session.value)),
                    if KeepsPosition(existing) then b.next else b.next + 1))
  }

  /** The ids of the tasks that have the alias. */
  function Aliased(tasks: seq<Task>, alias: Alias): seq<TaskId> {
    if tasks == [] then []
    else (if alias in tasks[0].aliases then [tasks[0].id] else []) + Aliased(tasks[1..], alias)
  }

  function ResolveTaskId(tasks: seq<Task>, e: Event): Result<TaskId, Error>
    requires e.action.Update?
  {
    var a := e.action;
    if Find(tasks, a.id).Some? then Ok(a.id)
    else if e.session.Some? && a.nativeId.Some? then
      var matches := Aliased(tasks, Alias(e.session.value, a.nativeId.value));
      if |matches| == 1 then Ok(matches[0]) else if |matches| > 1 then Err(AmbiguousTask) else Err(UnknownTask)
    else Err(UnknownTask)
  }

  /** dict.fromkeys: the first occurrence of each, in order. */
  function Dedupe(ids: seq<TaskId>): seq<TaskId> {
    if ids == [] then []
    else
      var before := Dedupe(ids[..|ids| - 1]);
      if ids[|ids| - 1] in before then before else before + [ids[|ids| - 1]]
  }

  function References(session: string, natives: seq<string>): seq<TaskId> {
    seq(|natives|, i requires 0 <= i < |natives| => Reference(session, natives[i]))
  }

  function WithReferences(had: seq<TaskId>, session: string, natives: Option<seq<string>>): seq<TaskId> {
    if natives.None? then had else Dedupe(had + References(session, natives.value))
  }

  function ChangedTask(t: Task, e: Event, session: string): Task
    requires e.action.Update?
  {
    var a := e.action;
    t.(status := if a.newStatus.Some? then a.newStatus.value else t.status,
       fields := t.fields + a.changes,
       blocks := WithReferences(t.blocks, session, a.addBlocks),
       blockedBy := WithReferences(t.blockedBy, session, a.addBlockedBy),
       source := e.source)
  }

  function Updated(b: Board, e: Event): Result<Board, Error>
    requires e.action.Update?
  {
    var a := e.action;
    var resolved := ResolveTaskId(b.tasks, e);
    if resolved.Err? then Err(resolved.error)
    else
      var found := Find(b.tasks, resolved.value);
      if found.None? then Err(UnknownTask)
      else if a.newStatus.Some? && !KnownStatus(a.newStatus.value) && a.newStatus.value != "deleted" then Err(BadStatus)
      else if a.newStatus == Some("deleted") then Ok(b.(tasks := Remove(b.tasks, resolved.value)))
      else
        var session := SessionOf(e.session, resolved.value);
        if session.None? then Err(NoSession)
        else Ok(b.(tasks := Put(b.tasks, ChangedTask(found.value, e, session.value))))
  }

  function Apply(b: Board, e: Event): Result<Board, Error> {
    match e.action
    case ReplacePlan(plan) =>
      if ValidPlan(plan) then Ok(b.(tasks := PutPlan(Part(b.tasks, Claude), plan, e.source))) else Err(BadPlanItem)
    case Create(_, _, _, _, _, _, _) => Created(b, e)
    case Update(_, _, _, _, _, _) => Updated(b, e)
    case Unknown => Err(BadAction)
  }

  function Play(es: seq<Event>): Result<Board, Error> {
    if es == [] then Ok(Board([], 0))
    else
      var before := Play(es[..|es| - 1]);
      if before.Err? then before else Apply(before.value, es[|es| - 1])
  }

  // ---------- ordering the events ----------

  /** Events without a time come first, in their order. */
  predicate Before(a: Event, b: Event) {
    if a.observedAt.None? then true else b.observedAt.Some? && a.observedAt.value <= b.observedAt.value
  }

  function Insert(e: Event, es: seq<Event>): seq<Event> {
    if es == [] || Before(e, es[0]) then [e] + es else [es[0]] + Insert(e, es[1..])
  }

  /** A stable sort. */
  function SortEvents(es: seq<Event>): seq<Event> {
    if es == [] then [] else Insert(es[0], SortEvents(es[1..]))
  }

  predicate HasDuplicateTime(es: seq<Event>) {
    exists i, j :: 0 <= i < j < |es| && es[i].observedAt.Some? && es[i].observedAt == es[j].observedAt
  }

  // ---------- the result ----------

  /** The task that each alias stands for; a later task wins. */
  function Provisioned(tasks: seq<Task>): map<TaskId, TaskId> {
    if tasks == [] then map[]
    else
      var t := tasks[|tasks| - 1];
      Provisioned(tasks[..|tasks| - 1]) + Naming(t)
  }

  function Naming(t: Task): map<TaskId, TaskId> {
    map r | r in AliasReferences(t.aliases) :: t.id
  }

  function AliasReferences(aliases: seq<Alias>): seq<TaskId> {
    seq(|aliases|, i requires 0 <= i < |aliases| => Reference(aliases[i].session, aliases[i].native))
  }

  function ResolveAll(ids: seq<TaskId>, provisioned: map<TaskId, TaskId>): seq<TaskId> {
    Dedupe(seq(|ids|, i requires 0 <= i < |ids| => if ids[i] in provisioned then provisioned[ids[i]] else ids[i]))
  }

  function Resolved(t: Task, provisioned: map<TaskId, TaskId>): Task {
    t.(blocks := ResolveAll(t.blocks, provisioned), blockedBy := ResolveAll(t.blockedBy, provisioned))
  }

  function ResolveTasks(tasks: seq<Task>, provisioned: map<TaskId, TaskId>): seq<Task> {
    seq(|tasks|, i requires 0 <= i < |tasks| => Resolved(tasks[i], provisioned))
  }

  /** By client, position and id. */
  predicate TaskLess(a: Task, b: Task) {
    if a.client != b.client then a.client.Claude?
    else a.position < b.position || (a.position == b.position && Text.StringLess(a.id, b.id))
  }

  function InsertTask(t: Task, ts: seq<Task>): seq<Task> {
    if ts == [] || !TaskLess(ts[0], t) then [t] + ts else [ts[0]] + InsertTask(t, ts[1..])
  }

  function SortTasks(ts: seq<Task>): seq<Task> {
    if ts == [] then [] else InsertTask(ts[0], SortTasks(ts[1..]))
  }

  function Remaining(tasks: seq<Task>): seq<TaskId> {
    if tasks == [] then []
    else if Active(tasks[0].status) then [tasks[0].id] + Remaining(tasks[1..])
    else Remaining(tasks[1..])
  }

  datatype Summary = Summary(count: nat, tasks: seq<Task>, remaining: seq<TaskId>)

  function Finish(tasks: seq<Task>): seq<Task> {
    SortTasks(ResolveTasks(tasks, Provisioned(tasks)))
  }

  function Reduce(rows: seq<Event>): Result<Summary, Error> {
    if |rows| >= HISTORY_LIMIT then Err(TooMany)
    else if HasDuplicateTime(rows) then Err(DuplicateTime)
    else
      var played := Play(SortEvents(rows));
      if played.Err? then Err(played.error)
      else
        var tasks := Finish(played.value.tasks);
        Ok(Summary(|rows|, tasks, Remaining(tasks)))
  }

  // ---------- the order of the rows does not matter ----------

  ghost predicate AllTimed(es: seq<Event>) {
    forall i :: 0 <= i < |es| ==> es[i].observedAt.Some?
  }

  ghost predicate Sorted(es: seq<Event>) {
    forall i, j :: 0 <= i < j < |es| ==> Before(es[i], es[j])
  }

  lemma {:induction false} InsertPermutes(e: Event, es: seq<Event>)
    ensures multiset(Insert(e, es)) == multiset(es) + multiset{e}
  {
    if !(es == [] || Before(e, es[0])) {
      InsertPermutes(e, es[1..]);
      assert es == [es[0]] + es[1..];
    }
  }

  lemma {:induction false} InsertSorts(e: Event, es: seq<Event>)
    requires Sorted(es)
    ensures Sorted(Insert(e, es))
  {
    if !(es == [] || Before(e, es[0])) {
      var rest := Insert(e, es[1..]);
      InsertSorts(e, es[1..]);
      InsertPermutes(e, es[1..]);
      forall i | 0 <= i < |rest| ensures Before(es[0], rest[i]) {
        assert rest[i] in multiset(rest);
        assert rest[i] == e || rest[i] in es[1..];
      }
    }
  }

  lemma {:induction false} SortEventsSorts(es: seq<Event>)
    ensures Sorted(SortEvents(es)) && multiset(SortEvents(es)) == multiset(es)
  {
    if es != [] {
      SortEventsSorts(es[1..]);
      InsertSorts(es[0], SortEvents(es[1..]));
      InsertPermutes(es[0], SortEvents(es[1..]));
      assert es == [es[0]] + es[1..];
    }
  }

  /** Lists without a repeated time have at most one sorted order. */
  lemma {:induction false} SortedIsUnique(a: seq<Event>, b: seq<Event>)
    requires Sorted(a) && Sorted(b) && multiset(a) == multiset(b)
    requires AllTimed(a) && !HasDuplicateTime(a)
    ensures a == b
    decreases |a|
  {
    assert |a| == |multiset(a)| == |multiset(b)| == |b|;
    if a != [] {
      FirstIsSame(a, b);
      SameTails(a, b);
      SortedIsUnique(a[1..], b[1..]);
      assert a == [a[0]] + a[1..] && b == [b[0]] + b[1..];
    }
  }

  lemma SameTails(a: seq<Event>, b: seq<Event>)
    requires a != [] && b != [] && a[0] == b[0] && multiset(a) == multiset(b)
    ensures multiset(a[1..]) == multiset(b[1..])
  {
    assert a == [a[0]] + a[1..] && b == [a[0]] + b[1..];
    assert multiset(a[1..]) == multiset(a) - multiset{a[0]} == multiset(b[1..]);
  }

  lemma FirstIsSame(a: seq<Event>, b: seq<Event>)
    requires Sorted(a) && Sorted(b) && multiset(a) == multiset(b) && a != [] && b != []
    requires AllTimed(a) && !HasDuplicateTime(a)
    ensures a[0] == b[0]
  {
    assert b[0] in multiset(a) && a[0] in multiset(b);
    var i :| 0 <= i < |a| && a[i] == b[0];
    var j :| 0 <= j < |b| && b[j] == a[0];
    assert Before(a[0], a[i]) && Before(b[0], b[j]);
    assert a[0].observedAt == a[i].observedAt;
  }

  lemma {:induction false} TwoOccurrences(es: seq<Event>, e: Event)
    requires multiset(es)[e] >= 2
    ensures exists i, j :: 0 <= i < j < |es| && es[i] == e && es[j] == e
  {
    assert es == [es[0]] + es[1..];
    if es[0] == e {
      assert e in multiset(es[1..]);
      var j :| 0 <= j < |es[1..]| && es[1..][j] == e;
      assert es[0] == e && es[j + 1] == e;
    } else {
      TwoOccurrences(es[1..], e);
      var i, j :| 0 <= i < j < |es[1..]| && es[1..][i] == e && es[1..][j] == e;
      assert es[i + 1] == e && es[j + 1] == e;
    }
  }

  lemma DuplicatesPermute(a: seq<Event>, b: seq<Event>)
    requires multiset(a) == multiset(b) && HasDuplicateTime(b)
    ensures HasDuplicateTime(a)
  {
    var i, j :| 0 <= i < j < |b| && b[i].observedAt.Some? && b[i].observedAt == b[j].observedAt;
    assert b[i] in multiset(a) && b[j] in multiset(a);
    if b[i] == b[j] {
      assert b == b[..j] + b[j..] && b[i] in b[..j] && b[j] in b[j..];
      assert multiset(b)[b[i]] == multiset(b[..j])[b[i]] + multiset(b[j..])[b[i]];
      TwoOccurrences(a, b[i]);
    } else {
      var k :| 0 <= k < |a| && a[k] == b[i];
      var l :| 0 <= l < |a| && a[l] == b[j];
      assert k < l || l < k;
    }
  }

  /** With times of observation on all events, the result does not depend on the order of the rows. */
  lemma ReduceIgnoresRowOrder(a: seq<Event>, b: seq<Event>)
    requires multiset(a) == multiset(b) && AllTimed(a)
    ensures Reduce(a) == Reduce(b)
  {
    assert |a| == |multiset(a)| == |multiset(b)| == |b|;
    if HasDuplicateTime(a) {
      DuplicatesPermute(b, a);
    } else if HasDuplicateTime(b) {
      DuplicatesPermute(a, b);
    } else {
      SortEventsSorts(a);
      SortEventsSorts(b);
      forall i | 0 <= i < |SortEvents(a)| ensures SortEvents(a)[i].observedAt.Some? {
        assert SortEvents(a)[i] in multiset(a);
      }
      if HasDuplicateTime(SortEvents(a)) {
        DuplicatesPermute(a, SortEvents(a));
      }
      SortedIsUnique(SortEvents(a), SortEvents(b));
    }
  }

  // ---------- the two clients do not interfere ----------

  predicate CodexId(id: TaskId) {
    |id| >= 6 && id[..6] == "codex:"
  }

  /** Plans name their tasks codex:..., and other events never do. */
  predicate SeparateIds(e: Event) {
    match e.action
    case ReplacePlan(plan) => forall i :: 0 <= i < |plan| ==> CodexId(plan[i].id)
    case Create(id, _, _, _, _, _, _) => !CodexId(id)
    case Update(id, _, _, _, _, _) => !CodexId(id)
    case Unknown => true
  }

  ghost predicate CleanTask(t: Task) {
    (t.client.Codex? <==> CodexId(t.id)) && (t.client.Codex? ==> t.aliases == [] && t.blocks == [] && t.blockedBy == [])
  }

  ghost predicate Clean(tasks: seq<Task>) {
    forall i :: 0 <= i < |tasks| ==> CleanTask(tasks[i])
  }

  lemma {:induction false} PartFind(tasks: seq<Task>, id: TaskId)
    requires Clean(tasks) && !CodexId(id)
    ensures Find(Part(tasks, Claude), id) == Find(tasks, id)
    ensures Find(tasks, id).Some? ==> Find(tasks, id).value.client.Claude? && Find(tasks, id).value.id == id
  {
    if tasks != [] {
      assert CleanTask(tasks[0]);
      PartFind(tasks[1..], id);
    }
  }

  lemma {:induction false} PartPut(tasks: seq<Task>, t: Task)
    requires Clean(tasks) && CleanTask(t)
    ensures Clean(Put(tasks, t))
    ensures Part(Put(tasks, t), t.client) == Put(Part(tasks, t.client), t)
    ensures forall c :: c != t.client ==> Part(Put(tasks, t), c) == Part(tasks, c)
  {
    if tasks != [] {
      assert CleanTask(tasks[0]);
      PartPut(tasks[1..], t);
      if tasks[0].id == t.id {
        assert ([t] + tasks[1..])[1..] == tasks[1..];
      } else {
        assert ([tasks[0]] + Put(tasks[1..], t))[1..] == Put(tasks[1..], t);
      }
    }
  }

  lemma {:induction false} PartRemove(tasks: seq<Task>, id: TaskId)
    requires Clean(tasks) && !CodexId(id)
    ensures Clean(Remove(tasks, id))
    ensures Part(Remove(tasks, id), Claude) == Remove(Part(tasks, Claude), id)
    ensures Part(Remove(tasks, id), Codex) == Part(tasks, Codex)
  {
    if tasks != [] {
      assert CleanTask(tasks[0]);
      PartRemove(tasks[1..], id);
      if tasks[0].id != id {
        assert ([tasks[0]] + Remove(tasks[1..], id))[1..] == Remove(tasks[1..], id);
      }
    }
  }

  lemma {:induction false} PartAliased(tasks: seq<Task>, alias: Alias)
    requires Clean(tasks)
    ensures Aliased(Part(tasks, Claude), alias) == Aliased(tasks, alias)
    ensures forall id :: id in Aliased(tasks, alias) ==> !CodexId(id)
  {
    if tasks != [] {
      assert CleanTask(tasks[0]);
      PartAliased(tasks[1..], alias);
    }
  }

  lemma {:induction false} PartAll(tasks: seq<Task>, c: Client)
    requires forall t :: t in tasks ==> t.client == c
    ensures Part(tasks, c) == tasks
    ensures forall d :: d != c ==> Part(tasks, d) == []
  {
    if tasks != [] {
      PartAll(tasks[1..], c);
    }
  }

  lemma {:induction false} PartIs(tasks: seq<Task>, c: Client)
    ensures forall t :: t in Part(tasks, c) <==> t in tasks && t.client == c
  {
    if tasks != [] {
      PartIs(tasks[1..], c);
    }
  }

  lemma PartIsClean(tasks: seq<Task>, c: Client)
    requires Clean(tasks)
    ensures Clean(Part(tasks, c))
  {
    PartIs(tasks, c);
    forall i | 0 <= i < |Part(tasks, c)| ensures CleanTask(Part(tasks, c)[i]) {
      assert Part(tasks, c)[i] in tasks;
    }
  }

  /** A plan put among the Claude tasks leaves them alone, and its tasks are those of the plan by itself. */
  lemma {:induction false} PartPlan(tasks: seq<Task>, plan: seq<PlanItem>, source: string)
    requires Clean(tasks) && (forall t :: t in tasks ==> t.client.Claude?)
    requires forall i :: 0 <= i < |plan| ==> CodexId(plan[i].id)
    ensures var after := PutPlan(tasks, plan, source);
            Clean(after) && Part(after, Claude) == tasks && Part(after, Codex) == PutPlan([], plan, source)
  {
    if plan == [] {
      PartAll(tasks, Claude);
    } else {
      var m := |plan| - 1;
      PartPlan(tasks, plan[..m], source);
      PartPut(PutPlan(tasks, plan[..m], source), PlanTask(plan[m], source));
    }
  }

  /** The same outcome, on the Claude part alone. */
  ghost predicate SameOnClaude(whole: Result<Board, Error>, alone: Result<Board, Error>, codex: seq<Task>) {
    if whole.Err? then alone == whole
    else alone.Ok? && Clean(whole.value.tasks) && alone.value == Board(Part(whole.value.tasks, Claude), whole.value.next) &&
         Part(whole.value.tasks, Codex) == codex
  }

  function Alone(b: Board): Board {
    b.(tasks := Part(b.tasks, Claude))
  }

  lemma CreatedOnClaude(b: Board, e: Event)
    requires Clean(b.tasks) && e.action.Create? && SeparateIds(e)
    ensures SameOnClaude(Created(b, e), Created(Alone(b), e), Part(b.tasks, Codex))
  {
    var a := e.action;
    PartFind(b.tasks, a.id);
    var session := if Given(a.taskSession) then a.taskSession else SessionOf(e.session, a.id);
    if session.Some? {
      PartPut(b.tasks, CreatedTask(Find(b.tasks, a.id), b.next, e, session.value));
    }
  }

  lemma ResolvedOnClaude(b: Board, e: Event)
    requires Clean(b.tasks) && e.action.Update? && SeparateIds(e)
    ensures ResolveTaskId(Alone(b).tasks, e) == ResolveTaskId(b.tasks, e)
    ensures ResolveTaskId(b.tasks, e).Ok? ==> !CodexId(ResolveTaskId(b.tasks, e).value)
  {
    PartFind(b.tasks, e.action.id);
    if e.session.Some? && e.action.nativeId.Some? {
      PartAliased(b.tasks, Alias(e.session.value, e.action.nativeId.value));
    }
  }

  lemma UpdatedOnClaude(b: Board, e: Event)
    requires Clean(b.tasks) && e.action.Update? && SeparateIds(e)
    ensures SameOnClaude(Updated(b, e), Updated(Alone(b), e), Part(b.tasks, Codex))
  {
    ResolvedOnClaude(b, e);
    var resolved := ResolveTaskId(b.tasks, e);
    if resolved.Ok? {
      var id := resolved.value;
      PartFind(b.tasks, id);
      PartRemove(b.tasks, id);
      var found, session := Find(b.tasks, id), SessionOf(e.session, id);
      if found.Some? && session.Some? {
        PartPut(b.tasks, ChangedTask(found.value, e, session.value));
      }
    }
  }

  function ClaudeOnly(es: seq<Event>): seq<Event> {
    if es == [] then []
    else
      var m := |es| - 1;
      ClaudeOnly(es[..m]) + if es[m].action.ReplacePlan? then [] else [es[m]]
  }

  /** The tasks of the last plan, if there is one. */
  function LastPlan(es: seq<Event>): seq<Task> {
    if es == [] then []
    else
      var e := es[|es| - 1];
      if e.action.ReplacePlan? then PutPlan([], e.action.plan, e.source) else LastPlan(es[..|es| - 1])
  }

  predicate PlansValid(es: seq<Event>) {
    forall i :: 0 <= i < |es| && es[i].action.ReplacePlan? ==> ValidPlan(es[i].action.plan)
  }

  ghost predicate AllSeparate(es: seq<Event>) {
    forall i :: 0 <= i < |es| ==> SeparateIds(es[i])
  }

  /** The history plays exactly when its plans are valid and the Claude events play by themselves;
      then the Claude tasks are those of the Claude events, and the Codex tasks those of the last plan. */
  lemma {:induction false} PlayInParts(es: seq<Event>)
    requires AllSeparate(es)
    ensures Play(es).Ok? <==> Play(ClaudeOnly(es)).Ok? && PlansValid(es)
    ensures Play(es).Ok? ==> SameOnClaude(Play(es), Play(ClaudeOnly(es)), LastPlan(es))
  {
    if es != [] {
      var m := |es| - 1;
      var e := es[m];
      PlayInParts(es[..m]);
      assert PlansValid(es) <==> PlansValid(es[..m]) && (e.action.ReplacePlan? ==> ValidPlan(e.action.plan)) by {
        assert forall i :: 0 <= i < m ==> es[..m][i] == es[i];
      }
      if e.action.ReplacePlan? {
        assert ClaudeOnly(es) == ClaudeOnly(es[..m]);
        if Play(es[..m]).Ok? {
          var b := Play(es[..m]).value;
          PartIs(b.tasks, Claude);
          PartIsClean(b.tasks, Claude);
          PartPlan(Part(b.tasks, Claude), e.action.plan, e.source);
        }
      } else {
        PlaySnoc(ClaudeOnly(es[..m]), e);
        if Play(es[..m]).Ok? {
          ApplyOnClaude(Play(es[..m]).value, e);
        }
      }
    }
  }

  lemma PlaySnoc(es: seq<Event>, e: Event)
    ensures Play(es + [e]) == if Play(es).Err? then Play(es) else Apply(Play(es).value, e)
  {
    assert (es + [e])[..|es|] == es;
  }

  lemma ApplyOnClaude(b: Board, e: Event)
    requires Clean(b.tasks) && SeparateIds(e) && !e.action.ReplacePlan?
    ensures SameOnClaude(Apply(b, e), Apply(Alone(b), e), Part(b.tasks, Codex))
  {
    match e.action
    case Create(_, _, _, _, _, _, _) => CreatedOnClaude(b, e);
    case Update(_, _, _, _, _, _) => UpdatedOnClaude(b, e);
    case Unknown =>
  }

  // ---------- the parts of the result ----------

  lemma {:induction false} ClaudeOnlySnoc(es: seq<Event>, e: Event)
    ensures ClaudeOnly(es + [e]) == ClaudeOnly(es) + if e.action.ReplacePlan? then [] else [e]
  {
    assert (es + [e])[..|es|] == es;
  }

  lemma {:induction false} ClaudeOnlyAppend(a: seq<Event>, b: seq<Event>)
    ensures ClaudeOnly(a + b) == ClaudeOnly(a) + ClaudeOnly(b)
    decreases |b|
  {
    if b == [] {
      assert a + b == a;
    } else {
      var m := |b| - 1;
      assert a + b == (a + b[..m]) + [b[m]];
      ClaudeOnlyAppend(a, b[..m]);
      ClaudeOnlySnoc(a + b[..m], b[m]);
      assert b == b[..m] + [b[m]];
      ClaudeOnlySnoc(b[..m], b[m]);
    }
  }

  lemma ClaudeOnlyCons(e: Event, es: seq<Event>)
    ensures ClaudeOnly([e] + es) == if e.action.ReplacePlan? then ClaudeOnly(es) else [e] + ClaudeOnly(es)
  {
    ClaudeOnlyAppend([e], es);
    assert [] + [e] == [e] && ClaudeOnly([]) == [];
    ClaudeOnlySnoc([], e);
    assert [] + ClaudeOnly(es) == ClaudeOnly(es);
  }

  lemma InsertPast(e: Event, x: Event, es: seq<Event>)
    requires !Before(e, x)
    ensures Insert(e, [x] + es) == [x] + Insert(e, es)
  {
    assert ([x] + es)[1..] == es;
  }

  lemma InsertHere(e: Event, es: seq<Event>)
    requires forall x :: x in es ==> Before(e, x)
    ensures Insert(e, es) == [e] + es
  {
  }

  lemma {:induction false} ClaudeOnlyIs(es: seq<Event>, e: Event)
    ensures e in ClaudeOnly(es) <==> e in es && !e.action.ReplacePlan?
  {
    if es != [] {
      var m := |es| - 1;
      ClaudeOnlyIs(es[..m], e);
      assert es == es[..m] + [es[m]];
    }
  }

  /** Dropping the plans commutes with sorting. */
  lemma {:induction false} InsertOnClaude(e: Event, es: seq<Event>)
    requires Sorted(es)
    ensures ClaudeOnly(Insert(e, es)) == if e.action.ReplacePlan? then ClaudeOnly(es) else Insert(e, ClaudeOnly(es))
  {
    if es == [] || Before(e, es[0]) {
      ClaudeOnlyCons(e, es);
      forall x | x in ClaudeOnly(es) ensures Before(e, x) {
        ClaudeOnlyIs(es, x);
      }
      InsertHere(e, ClaudeOnly(es));
    } else {
      var x, rest := es[0], es[1..];
      InsertOnClaude(e, rest);
      assert es == [x] + rest;
      ClaudeOnlyCons(x, rest);
      ClaudeOnlyCons(x, Insert(e, rest));
      InsertPast(e, x, ClaudeOnly(rest));
    }
  }

  lemma {:induction false} SortOnClaude(es: seq<Event>)
    ensures SortEvents(ClaudeOnly(es)) == ClaudeOnly(SortEvents(es))
    decreases |es|
  {
    if es != [] {
      var x, rest := es[0], es[1..];
      SortOnClaude(rest);
      SortEventsSorts(rest);
      assert es == [x] + rest;
      ClaudeOnlyCons(x, rest);
      InsertOnClaude(x, SortEvents(rest));
      SortCons(x, ClaudeOnly(rest));
    }
  }

  lemma SortCons(e: Event, es: seq<Event>)
    ensures SortEvents([e] + es) == Insert(e, SortEvents(es))
  {
    assert ([e] + es)[1..] == es;
  }

  lemma ProvisionedSnoc(tasks: seq<Task>, t: Task)
    ensures Provisioned(tasks + [t]) == Provisioned(tasks) + Naming(t)
  {
    assert (tasks + [t])[..|tasks|] == tasks;
  }

  lemma NamesNothing(t: Task, names: map<TaskId, TaskId>)
    requires t.aliases == []
    ensures names + Naming(t) == names
  {
    assert Naming(t) == map[];
  }

  lemma {:induction false} ProvisionedOnClaude(tasks: seq<Task>)
    requires Clean(tasks)
    ensures Provisioned(Part(tasks, Claude)) == Provisioned(tasks)
  {
    if tasks != [] {
      var before, t := tasks[..|tasks| - 1], tasks[|tasks| - 1];
      assert CleanTask(t);
      ProvisionedOnClaude(before);
      assert tasks == before + [t];
      PartSnoc(before, t, Claude);
      ProvisionedSnoc(before, t);
      if t.client.Claude? {
        ProvisionedSnoc(Part(before, Claude), t);
      } else {
        NamesNothing(t, Provisioned(before));
        assert Part(before, Claude) + [] == Part(before, Claude);
      }
    }
  }

  lemma {:induction false} PartSnoc(tasks: seq<Task>, t: Task, c: Client)
    ensures Part(tasks + [t], c) == Part(tasks, c) + if t.client == c then [t] else []
  {
    if tasks == [] {
      assert tasks + [t] == [t] && [t][1..] == [];
    } else {
      PartSnoc(tasks[1..], t, c);
      assert (tasks + [t])[1..] == tasks[1..] + [t];
    }
  }

  lemma {:induction false} PartResolved(tasks: seq<Task>, provisioned: map<TaskId, TaskId>, c: Client)
    ensures Part(ResolveTasks(tasks, provisioned), c) == ResolveTasks(Part(tasks, c), provisioned)
  {
    if tasks != [] {
      PartResolved(tasks[1..], provisioned, c);
      assert ResolveTasks(tasks, provisioned)[1..] == ResolveTasks(tasks[1..], provisioned);
      assert ResolveTasks(tasks, provisioned)[0].client == tasks[0].client;
      if tasks[0].client == c {
        var part := Part(tasks[1..], c);
        assert ResolveTasks([tasks[0]] + part, provisioned) == [Resolved(tasks[0], provisioned)] + ResolveTasks(part, provisioned);
      }
    }
  }

  lemma CodexResolved(tasks: seq<Task>, provisioned: map<TaskId, TaskId>)
    requires Clean(tasks) && forall t :: t in tasks ==> t.client.Codex?
    ensures ResolveTasks(tasks, provisioned) == tasks
  {
    forall i | 0 <= i < |tasks| ensures Resolved(tasks[i], provisioned) == tasks[i] {
      assert CleanTask(tasks[i]);
      assert ResolveAll([], provisioned) == [];
    }
  }

  ghost predicate AllOf(ts: seq<Task>, c: Client) {
    forall i :: 0 <= i < |ts| ==> ts[i].client == c
  }

  lemma {:induction false} InsertTaskClient(t: Task, ts: seq<Task>)
    requires AllOf(ts, t.client)
    ensures AllOf(InsertTask(t, ts), t.client)
  {
    if !(ts == [] || !TaskLess(ts[0], t)) {
      InsertTaskClient(t, ts[1..]);
    }
  }

  lemma {:induction false} SortTasksClient(ts: seq<Task>, c: Client)
    requires AllOf(ts, c)
    ensures AllOf(SortTasks(ts), c)
  {
    if ts != [] {
      SortTasksClient(ts[1..], c);
      InsertTaskClient(ts[0], SortTasks(ts[1..]));
    }
  }

  lemma {:induction false} InsertClaude(t: Task, a: seq<Task>, b: seq<Task>)
    requires t.client.Claude? && AllOf(a, Claude) && AllOf(b, Codex)
    ensures InsertTask(t, a + b) == InsertTask(t, a) + b
  {
    if a == [] {
      assert a + b == b;
    } else if TaskLess(a[0], t) {
      InsertClaude(t, a[1..], b);
      assert (a + b)[1..] == a[1..] + b;
    } else {
      assert [t] + (a + b) == ([t] + a) + b;
    }
  }

  lemma {:induction false} InsertCodex(t: Task, a: seq<Task>, b: seq<Task>)
    requires t.client.Codex? && AllOf(a, Claude)
    ensures InsertTask(t, a + b) == a + InsertTask(t, b)
  {
    if a == [] {
      assert a + b == b && a + InsertTask(t, b) == InsertTask(t, b);
    } else {
      InsertCodex(t, a[1..], b);
      assert (a + b)[1..] == a[1..] + b;
      assert [a[0]] + (a[1..] + InsertTask(t, b)) == a + InsertTask(t, b);
    }
  }

  lemma PartIsOf(ts: seq<Task>, c: Client)
    ensures AllOf(Part(ts, c), c)
  {
    PartIs(ts, c);
    forall i | 0 <= i < |Part(ts, c)| ensures Part(ts, c)[i].client == c {
      assert Part(ts, c)[i] in Part(ts, c);
    }
  }

  /** Sorting puts the Claude tasks before the Codex tasks, each in their own order. */
  lemma {:induction false} SortInParts(ts: seq<Task>)
    ensures SortTasks(ts) == SortTasks(Part(ts, Claude)) + SortTasks(Part(ts, Codex))
  {
    if ts != [] {
      var rest := ts[1..];
      SortInParts(rest);
      PartIsOf(rest, Claude);
      PartIsOf(rest, Codex);
      SortTasksClient(Part(rest, Claude), Claude);
      SortTasksClient(Part(rest, Codex), Codex);
      var a, b := SortTasks(Part(rest, Claude)), SortTasks(Part(rest, Codex));
      if ts[0].client.Claude? {
        InsertClaude(ts[0], a, b);
        assert ([ts[0]] + Part(rest, Claude))[1..] == Part(rest, Claude);
      } else {
        InsertCodex(ts[0], a, b);
        assert ([ts[0]] + Part(rest, Codex))[1..] == Part(rest, Codex);
      }
    }
  }

  lemma FinishInParts(tasks: seq<Task>)
    requires Clean(tasks)
    ensures Finish(tasks) == Finish(Part(tasks, Claude)) + SortTasks(Part(tasks, Codex))
  {
    var provisioned := Provisioned(tasks);
    ProvisionedOnClaude(tasks);
    PartResolved(tasks, provisioned, Claude);
    PartResolved(tasks, provisioned, Codex);
    PartIs(tasks, Codex);
    PartIsClean(tasks, Codex);
    CodexResolved(Part(tasks, Codex), provisioned);
    SortInParts(ResolveTasks(tasks, provisioned));
  }

  lemma {:induction false} RemainingAppend(a: seq<Task>, b: seq<Task>)
    ensures Remaining(a + b) == Remaining(a) + Remaining(b)
  {
    if a == [] {
      assert a + b == b;
    } else {
      RemainingAppend(a[1..], b);
      assert a + b == [a[0]] + (a[1..] + b);
      RemainingCons(a[0], a[1..] + b);
      Regroup(a[0].id, Remaining(a[1..]), Remaining(b));
    }
  }

  lemma Regroup(id: TaskId, a: seq<TaskId>, b: seq<TaskId>)
    ensures [id] + (a + b) == ([id] + a) + b
  {
  }

  lemma RemainingCons(t: Task, ts: seq<Task>)
    ensures Remaining([t] + ts) == if Active(t.status) then [t.id] + Remaining(ts) else Remaining(ts)
  {
    assert ([t] + ts)[1..] == ts;
  }

  /** The reduced state is the state of the Claude events by themselves, followed by the last plan. */
  lemma ClientsDoNotInterfere(rows: seq<Event>)
    requires AllSeparate(rows) && Reduce(rows).Ok?
    ensures var claude := Reduce(ClaudeOnly(rows));
            var plan := SortTasks(LastPlan(SortEvents(rows)));
            claude.Ok? && Reduce(rows).value.tasks == claude.value.tasks + plan &&
            Reduce(rows).value.remaining == claude.value.remaining + Remaining(plan)
  {
    var sorted := SortEvents(rows);
    SortEventsSorts(rows);
    forall i | 0 <= i < |sorted| ensures SeparateIds(sorted[i]) {
      assert sorted[i] in multiset(rows);
    }
    PlayInParts(sorted);
    SortOnClaude(rows);
    ClaudeOnlyShorter(rows);
    ClaudeOnlyNoDuplicate(rows);
    var tasks := Play(sorted).value.tasks;
    FinishInParts(tasks);
    RemainingAppend(Finish(Part(tasks, Claude)), SortTasks(Part(tasks, Codex)));
  }

  lemma {:induction false} ClaudeOnlyShorter(es: seq<Event>)
    ensures |ClaudeOnly(es)| <= |es|
  {
    if es != [] {
      ClaudeOnlyShorter(es[..|es| - 1]);
    }
  }

  lemma {:induction false} ClaudeOnlyNoDuplicate(es: seq<Event>)
    requires !HasDuplicateTime(es)
    ensures !HasDuplicateTime(ClaudeOnly(es))
  {
    if es != [] {
      var m := |es| - 1;
      var before := ClaudeOnly(es[..m]);
      assert !HasDuplicateTime(es[..m]) by {
        assert forall i :: 0 <= i < m ==> es[..m][i] == es[i];
      }
      ClaudeOnlyNoDuplicate(es[..m]);
      forall i | 0 <= i < |before| && es[m].observedAt.Some? ensures before[i].observedAt != es[m].observedAt {
        ClaudeOnlyIs(es[..m], before[i]);
        assert before[i] in es[..m];
        var k :| 0 <= k < m && es[..m][k] == before[i];
        assert es[k] == before[i];
      }
    }
  }

  // ---------- positions ----------

  function IndexOf(tasks: seq<Task>, id: TaskId): nat {
    if tasks == [] || tasks[0].id == id then 0 else 1 + IndexOf(tasks[1..], id)
  }

  lemma {:induction false} IndexOfIs(tasks: seq<Task>, id: TaskId)
    ensures IndexOf(tasks, id) <= |tasks|
    ensures forall i :: 0 <= i < IndexOf(tasks, id) ==> tasks[i].id != id
    ensures Find(tasks, id) == if IndexOf(tasks, id) < |tasks| then Some(tasks[IndexOf(tasks, id)]) else None
    ensures IndexOf(tasks, id) < |tasks| ==> tasks[IndexOf(tasks, id)].id == id
  {
    if tasks != [] && tasks[0].id != id {
      IndexOfIs(tasks[1..], id);
    }
  }

  lemma {:induction false} PutIs(tasks: seq<Task>, t: Task)
    ensures var k := IndexOf(tasks, t.id);
            k <= |tasks| && Put(tasks, t) == if k < |tasks| then tasks[k := t] else tasks + [t]
  {
    IndexOfIs(tasks, t.id);
    if tasks != [] && tasks[0].id != t.id {
      PutIs(tasks[1..], t);
    }
  }

  ghost predicate UniqueIds(tasks: seq<Task>) {
    forall i, j :: 0 <= i < j < |tasks| ==> tasks[i].id != tasks[j].id
  }

  /** Claude positions are distinct and were all given out. */
  ghost predicate PositionsHold(tasks: seq<Task>, next: nat) {
    (forall i :: 0 <= i < |tasks| && tasks[i].client.Claude? ==> 0 <= tasks[i].position < next) &&
    forall i, j :: 0 <= i < j < |tasks| && tasks[i].client.Claude? && tasks[j].client.Claude? ==>
      tasks[i].position != tasks[j].position
  }

  lemma PutKeepsUnique(tasks: seq<Task>, t: Task)
    requires UniqueIds(tasks)
    ensures UniqueIds(Put(tasks, t))
  {
    PutIs(tasks, t);
    IndexOfIs(tasks, t.id);
  }

  /** Put keeps positions apart when the task has its old position or a new one, or is Codex's. */
  lemma PutKeepsPositions(tasks: seq<Task>, t: Task, next: nat, after: nat)
    requires UniqueIds(tasks) && PositionsHold(tasks, next) && next <= after
    requires t.client.Claude? ==>
               var found := Find(tasks, t.id);
               if KeepsPosition(found) then t.position == found.value.position else next <= t.position < after
    ensures PositionsHold(Put(tasks, t), after)
  {
    PutIs(tasks, t);
    IndexOfIs(tasks, t.id);
  }

  lemma {:induction false} PlanKeepsPositions(tasks: seq<Task>, plan: seq<PlanItem>, source: string, next: nat)
    requires UniqueIds(tasks) && PositionsHold(tasks, next)
    ensures UniqueIds(PutPlan(tasks, plan, source)) && PositionsHold(PutPlan(tasks, plan, source), next)
  {
    if plan != [] {
      var m := |plan| - 1;
      var before, t := PutPlan(tasks, plan[..m], source), PlanTask(plan[m], source);
      PlanKeepsPositions(tasks, plan[..m], source, next);
      PutKeepsUnique(before, t);
      PutKeepsPositions(before, t, next, next);
    }
  }

  ghost predicate Apart(t: Task, ts: seq<Task>) {
    forall u :: u in ts ==> u.id != t.id && (t.client.Claude? && u.client.Claude? ==> u.position != t.position)
  }

  lemma ConsHolds(t: Task, ts: seq<Task>, next: nat)
    requires Apart(t, ts) && UniqueIds(ts) && PositionsHold(ts, next)
    requires t.client.Claude? ==> 0 <= t.position < next
    ensures UniqueIds([t] + ts) && PositionsHold([t] + ts, next)
  {
    forall i | 0 <= i < |ts| ensures ts[i].id != t.id && (t.client.Claude? && ts[i].client.Claude? ==> ts[i].position != t.position) {
      assert ts[i] in ts;
    }
  }

  lemma HeadIsApart(tasks: seq<Task>, next: nat)
    requires tasks != [] && UniqueIds(tasks) && PositionsHold(tasks, next)
    ensures Apart(tasks[0], tasks[1..]) && UniqueIds(tasks[1..]) && PositionsHold(tasks[1..], next)
  {
  }

  lemma {:induction false} PartKeepsPositions(tasks: seq<Task>, c: Client, next: nat)
    requires UniqueIds(tasks) && PositionsHold(tasks, next)
    ensures UniqueIds(Part(tasks, c)) && PositionsHold(Part(tasks, c), next)
  {
    if tasks != [] {
      HeadIsApart(tasks, next);
      PartKeepsPositions(tasks[1..], c, next);
      PartIs(tasks[1..], c);
      if tasks[0].client == c { ConsHolds(tasks[0], Part(tasks[1..], c), next); }
    }
  }

  lemma {:induction false} RemoveKeepsPositions(tasks: seq<Task>, id: TaskId, next: nat)
    requires UniqueIds(tasks) && PositionsHold(tasks, next)
    ensures UniqueIds(Remove(tasks, id)) && PositionsHold(Remove(tasks, id), next)
    ensures forall t :: t in Remove(tasks, id) ==> t in tasks
  {
    if tasks != [] {
      HeadIsApart(tasks, next);
      if tasks[0].id != id {
        RemoveKeepsPositions(tasks[1..], id, next);
        ConsHolds(tasks[0], Remove(tasks[1..], id), next);
      }
    }
  }

  ghost predicate BoardHolds(b: Board) {
    UniqueIds(b.tasks) && PositionsHold(b.tasks, b.next)
  }

  lemma CreatedKeepsPositions(b: Board, e: Event)
    requires BoardHolds(b) && e.action.Create? && Created(b, e).Ok?
    ensures BoardHolds(Created(b, e).value)
  {
    var a := e.action;
    var session := if Given(a.taskSession) then a.taskSession else SessionOf(e.session, a.id);
    var t := CreatedTask(Find(b.tasks, a.id), b.next, e, session.value);
    PutKeepsUnique(b.tasks, t);
    PutKeepsPositions(b.tasks, t, b.next, Created(b, e).value.next);
  }

  lemma UpdatedKeepsPositions(b: Board, e: Event)
    requires BoardHolds(b) && e.action.Update? && Updated(b, e).Ok?
    ensures BoardHolds(Updated(b, e).value)
  {
    var id := ResolveTaskId(b.tasks, e).value;
    if e.action.newStatus == Some("deleted") {
      RemoveKeepsPositions(b.tasks, id, b.next);
    } else {
      IndexOfIs(b.tasks, id);
      var t := ChangedTask(Find(b.tasks, id).value, e, SessionOf(e.session, id).value);
      PutKeepsUnique(b.tasks, t);
      PutKeepsPositions(b.tasks, t, b.next, b.next);
    }
  }

  lemma ApplyKeepsPositions(b: Board, e: Event)
    requires BoardHolds(b) && Apply(b, e).Ok?
    ensures BoardHolds(Apply(b, e).value)
  {
    match e.action
    case ReplacePlan(plan) =>
      PartKeepsPositions(b.tasks, Claude, b.next);
      PlanKeepsPositions(Part(b.tasks, Claude), plan, e.source, b.next);
    case Create(_, _, _, _, _, _, _) => CreatedKeepsPositions(b, e);
    case Update(_, _, _, _, _, _) => UpdatedKeepsPositions(b, e);
  }

  /** In every history the ids are unique and the Claude positions are distinct. */
  lemma {:induction false} ClaudePositionsAreDistinct(es: seq<Event>)
    ensures Play(es).Ok? ==> BoardHolds(Play(es).value)
  {
    if es != [] {
      ClaudePositionsAreDistinct(es[..|es| - 1]);
      if Play(es).Ok? {
        ApplyKeepsPositions(Play(es[..|es| - 1]).value, es[|es| - 1]);
      }
    }
  }

  lemma {:induction false} FindPut(tasks: seq<Task>, t: Task, id: TaskId)
    ensures Find(Put(tasks, t), id) == if id == t.id then Some(t) else Find(tasks, id)
  {
    if tasks != [] {
      FindPut(tasks[1..], t, id);
    }
  }

  lemma {:induction false} FindRemove(tasks: seq<Task>, gone: TaskId, id: TaskId)
    requires UniqueIds(tasks)
    ensures Find(Remove(tasks, gone), id) == if id == gone then None else Find(tasks, id)
  {
    if tasks != [] {
      FindRemove(tasks[1..], gone, id);
      if tasks[0].id == gone && id == gone {
        IndexOfIs(tasks[1..], id);
      }
    }
  }

  lemma {:induction false} FindClaude(tasks: seq<Task>, id: TaskId)
    requires Find(tasks, id).Some? && Find(tasks, id).value.client.Claude?
    ensures Find(Part(tasks, Claude), id) == Find(tasks, id)
  {
    if tasks[0].id != id {
      FindClaude(tasks[1..], id);
    }
  }

  lemma {:induction false} FindPutPlan(tasks: seq<Task>, plan: seq<PlanItem>, source: string, id: TaskId)
    ensures var found := Find(PutPlan(tasks, plan, source), id);
            found == Find(tasks, id) || (found.Some? && found.value.client.Codex?)
  {
    if plan != [] {
      var m := |plan| - 1;
      FindPutPlan(tasks, plan[..m], source, id);
      FindPut(PutPlan(tasks, plan[..m], source), PlanTask(plan[m], source), id);
    }
  }

  lemma {:induction false} FindHasId(tasks: seq<Task>, id: TaskId)
    ensures Find(tasks, id).Some? ==> Find(tasks, id).value.id == id
  {
    IndexOfIs(tasks, id);
  }

  /** No event moves a Claude task that it does not remove. */
  lemma ClaudePositionsAreStable(b: Board, e: Event, id: TaskId)
    requires BoardHolds(b) && Apply(b, e).Ok?
    requires var t, u := Find(b.tasks, id), Find(Apply(b, e).value.tasks, id);
             KeepsPosition(t) && KeepsPosition(u)
    ensures Find(Apply(b, e).value.tasks, id).value.position == Find(b.tasks, id).value.position
  {
    var a := e.action;
    match a
    case ReplacePlan(plan) =>
      FindClaude(b.tasks, id);
      FindPutPlan(Part(b.tasks, Claude), plan, e.source, id);
    case Create(_, _, _, _, _, _, _) =>
      var session := if Given(a.taskSession) then a.taskSession else SessionOf(e.session, a.id);
      FindPut(b.tasks, CreatedTask(Find(b.tasks, a.id), b.next, e, session.value), id);
    case Update(_, _, _, _, _, _) =>
      var resolved := ResolveTaskId(b.tasks, e).value;
      FindHasId(b.tasks, resolved);
      if a.newStatus == Some("deleted") {
        FindRemove(b.tasks, resolved, id);
      } else {
        FindPut(b.tasks, ChangedTask(Find(b.tasks, resolved).value, e, SessionOf(e.session, resolved).value), id);
      }
  }

  // ---------- the program ----------

  function TimesOf(rows: seq<Event>, n: nat): set<int>
    requires n <= |rows|
  {
    set j | 0 <= j < n && rows[j].observedAt.Some? :: rows[j].observedAt.value
  }

  lemma OneMoreTime(rows: seq<Event>, n: nat)
    requires n < |rows| && !HasDuplicateTime(rows[..n])
    ensures var at := rows[n].observedAt;
            (HasDuplicateTime(rows[..n + 1]) <==> at.Some? && at.value in TimesOf(rows, n)) &&
            TimesOf(rows, n + 1) == TimesOf(rows, n) + if at.Some? then {at.value} else {}
  {
    var at := rows[n].observedAt;
    forall i, j | 0 <= i < j < n && rows[i].observedAt.Some? ensures rows[i].observedAt != rows[j].observedAt {
      assert rows[..n][i] == rows[i] && rows[..n][j] == rows[j];
    }
    if at.Some? && at.value in TimesOf(rows, n) {
      var j :| 0 <= j < n && rows[j].observedAt.Some? && rows[j].observedAt.value == at.value;
      assert rows[..n + 1][j].observedAt == rows[..n + 1][n].observedAt;
    }
  }

  lemma DuplicateStays(rows: seq<Event>, n: nat)
    requires n <= |rows| && HasDuplicateTime(rows[..n])
    ensures HasDuplicateTime(rows)
  {
    var i, j :| 0 <= i < j < n && rows[..n][i].observedAt.Some? && rows[..n][i].observedAt == rows[..n][j].observedAt;
    assert rows[i].observedAt == rows[j].observedAt;
  }

  method CheckTimes(rows: seq<Event>) returns (repeated: bool)
    ensures repeated <==> HasDuplicateTime(rows)
  {
    var seen: set<int> := {};
    for i := 0 to |rows|
      invariant !HasDuplicateTime(rows[..i]) && seen == TimesOf(rows, i)
    {
      var at := rows[i].observedAt;
      OneMoreTime(rows, i);
      if at.Some? {
        if at.value in seen {
          DuplicateStays(rows, i + 1);
          return true;
        }
        seen := seen + {at.value};
      }
    }
    assert rows[..|rows|] == rows;
    return false;
  }

  /** A plan replaces the Codex tasks, item by item. */
  method ReplaceTasks(tasks0: seq<Task>, plan: seq<PlanItem>, source: string) returns (r: Result<seq<Task>, Error>)
    ensures r == if ValidPlan(plan) then Ok(PutPlan(Part(tasks0, Claude), plan, source)) else Err(BadPlanItem)
  {
    var tasks := Part(tasks0, Claude);
    for i := 0 to |plan|
      invariant tasks == PutPlan(Part(tasks0, Claude), plan[..i], source) && ValidPlan(plan[..i])
    {
      if !KnownStatus(plan[i].status) || plan[i].position < 0 { return Err(BadPlanItem); }
      assert plan[..i + 1][..i] == plan[..i];
      tasks := Put(tasks, PlanTask(plan[i], source));
    }
    assert plan[..|plan|] == plan;
    return Ok(tasks);
  }

  method ApplyEvent(b: Board, e: Event) returns (r: Result<Board, Error>)
    ensures r == Apply(b, e)
  {
    match e.action {
      case ReplacePlan(plan) =>
        var replaced := ReplaceTasks(b.tasks, plan, e.source);
        return if replaced.Ok? then Ok(Board(replaced.value, b.next)) else Err(replaced.error);
      case Create(_, _, _, _, _, _, _) => return Created(b, e);
      case Update(_, _, _, _, _, _) => return Updated(b, e);
      case Unknown => return Err(BadAction);
    }
  }

  /** One more event, and nothing more after an error. */
  lemma PlayNext(es: seq<Event>, i: nat)
    requires i < |es| && Play(es[..i]).Ok?
    ensures Play(es[..i + 1]) == Apply(Play(es[..i]).value, es[i])
    ensures Play(es[..i + 1]).Err? ==> Play(es) == Play(es[..i + 1])
  {
    assert es[..i + 1] == es[..i] + [es[i]];
    PlaySnoc(es[..i], es[i]);
    if Play(es[..i + 1]).Err? {
      PlayStopsAt(es[..i + 1], es[i + 1..]);
      assert es == es[..i + 1] + es[i + 1..];
    }
  }

  method PlayAll(es: seq<Event>) returns (r: Result<Board, Error>)
    ensures r == Play(es)
  {
    var b := Board([], 0);
    for i := 0 to |es|
      invariant Play(es[..i]) == Ok(b)
    {
      var step := ApplyEvent(b, es[i]);
      PlayNext(es, i);
      if step.Err? { return step; }
      b := step.value;
    }
    assert es[..|es|] == es;
    return Ok(b);
  }

  lemma {:induction false} PlayStopsAt(a: seq<Event>, b: seq<Event>)
    requires Play(a).Err?
    ensures Play(a + b) == Play(a)
    decreases |b|
  {
    if b == [] {
      assert a + b == a;
    } else {
      var m := |b| - 1;
      PlayStopsAt(a, b[..m]);
      assert a + b == (a + b[..m]) + [b[m]];
      PlaySnoc(a + b[..m], b[m]);
    }
  }

  /** The loop that resolves each task's dependencies while the others are being resolved. */
  method ResolveEach(tasks0: seq<Task>) returns (tasks: seq<Task>)
    ensures tasks == ResolveTasks(tasks0, Provisioned(tasks0))
  {
    tasks := tasks0;
    for i := 0 to |tasks0|
      invariant |tasks| == |tasks0|
      invariant forall j :: 0 <= j < |tasks| ==>
        tasks[j] == if j < i then Resolved(tasks0[j], Provisioned(tasks0)) else tasks0[j]
    {
      ProvisionedSame(tasks, tasks0);
      tasks := tasks[i := Resolved(tasks[i], Provisioned(tasks))];
    }
  }

  lemma {:induction false} ProvisionedSame(a: seq<Task>, b: seq<Task>)
    requires |a| == |b| && forall i :: 0 <= i < |a| ==> a[i].id == b[i].id && a[i].aliases == b[i].aliases
    ensures Provisioned(a) == Provisioned(b)
  {
    if a != [] {
      ProvisionedSame(a[..|a| - 1], b[..|b| - 1]);
    }
  }

  method ReduceRows(rows: seq<Event>) returns (r: Result<Summary, Error>)
    ensures r == Reduce(rows)
  {
    if |rows| >= HISTORY_LIMIT { return Err(TooMany); }
    var repeated := CheckTimes(rows);
    if repeated { return Err(DuplicateTime); }
    var played := PlayAll(SortEvents(rows));
    if played.Err? { return Err(played.error); }
    var tasks := ResolveEach(played.value.tasks);
    var ordered := SortTasks(tasks);
    return Ok(Summary(|rows|, ordered, Remaining(ordered)));
  }
}
