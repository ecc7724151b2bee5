/** replay_with_cursor: two passes over the source's pages against a mutable target. */
module ReplayRun {
  import opened Records
  import opened Planner
  import opened Execution
  import opened Composition
  import opened Retention
  import opened Sources
  import opened Replication
  import opened Database
  import opened LazyView

  const PAGE: nat := 500

  /** The next page of a scope starts where the last one ended. */
  lemma NextPage(es: seq<Event>, ns: Option<string>, start: int, k: nat, pos: int)
    requires Increasing(es) && k <= |InScope(es, ns, start)| && start >= 0
    requires pos == if k == 0 then start else InScope(es, ns, start)[k - 1].seqNo
    ensures InScope(es, ns, pos) == InScope(es, ns, start)[k..]
  {
    var all := InScope(es, ns, start);
    if k > 0 {
      InScopeInOrder(es, ns, 0);
      InScopeInOrder(es, ns, start);
      ScopeFrom(es, ns, start);
      ScopeFrom(es, ns, pos);
      var whole := InScope(es, ns, 0);
      var a := Reached(whole, start);
      assert all[k - 1] == whole[a + k - 1];
      ReachedAt(whole, a + k - 1);
    }
  }

  /** What pass 1 knows after planning `done`: the dispositions and the view they lead to. */
  ghost predicate Planning(st: PlanState, done: seq<Event>, ds: seq<Disposition>, v: View, v0: View, src: Identity, scope: set<EventType>, db: DB)
    reads st
  {
    PlanAll(done, src, scope, v0) == Planned(ds, v) && Sees(st.View(v.prev), st.Fetched(), v, db)
  }

  /** Plan one covered event: the lazy state answers as the eager plan does. */
  method PlanEvent(st: PlanState, e: Event, src: Identity, scope: set<EventType>,
                   ghost done: seq<Event>, ghost ds: seq<Disposition>, ghost v: View, ghost v0: View, ghost db: DB, prev: int)
      returns (r: Result<Disposition, Reason>, ghost v': View)
    requires Persistent(src) && Planning(st, done, ds, v, v0, src, scope, db) && Covers(st.Fetched(), e) && prev == v.prev
    modifies st`live, st`owner, st`tombs, st`mutated, st`created
    ensures r.Err? ==> PlanAll(done + [e], src, scope, v0) == Raised(r.error)
    ensures r.Ok? ==> Planning(st, done + [e], ds + [r.value], v', v0, src, scope, db) && v'.prev == e.seqNo
  {
    SameAnswer(st.View(prev), st.Fetched(), v, db, e, src, scope);
    assert (done + [e])[..|done|] == done;
    ghost var l, d := st.View(prev), st.Fetched();
    r := st.Step(e, prev, src, scope);
    v' := v;
    if r.Ok? {
      v' := Effect(v, e, r.value, src);
      StepSees(l, d, v, db, e, src, scope, r.value);
    }
  }

  lemma StepSees(l: View, d: Loaded, v: View, db: DB, e: Event, src: Identity, scope: set<EventType>, b: Disposition)
    requires Persistent(src) && Sees(l, d, v, db) && Covers(d, e) && Disposed(e, src, scope, v) == Ok(b)
    ensures Sees(Effect(l, e, b, src), d, Effect(v, e, b, src), db)
  {
    if IsApply(b) {
      ChangesAreAdmitted(v, e, src, scope, b);
      AppliedNamespace(v, e, src, scope, b);
      SeesEffect(l, d, v, db, e, src, b);
    }
  }

  lemma AppliedNamespace(v: View, e: Event, src: Identity, scope: set<EventType>, b: Disposition)
    requires Disposed(e, src, scope, v) == Ok(b) && IsApply(b)
    ensures e.ns == e.rec.ns
  {
  }

  /** Names a position of a window, to say where the facts about all of them are used. */
  predicate Position(k: int) {
    true
  }

  /** The planned dispositions by sequence number. */
  ghost predicate Recorded(plan: map<int, Disposition>, done: seq<Event>, ds: seq<Disposition>) {
    |done| == |ds| &&
    forall i {:trigger Position(i)} :: 0 <= i < |done| && Position(i) ==> done[i].seqNo in plan && plan[done[i].seqNo] == ds[i]
  }

  lemma RecordOne(plan: map<int, Disposition>, done: seq<Event>, ds: seq<Disposition>, e: Event, d: Disposition)
    requires Recorded(plan, done, ds) && forall f <- done :: f.seqNo < e.seqNo
    ensures Recorded(plan[e.seqNo := d], done + [e], ds + [d])
  {
    assert forall i :: 0 <= i < |done| ==> done[i] in done && done[i].seqNo != e.seqNo;
  }

  /** The outcome of pass 1. The identities of the window are collected where the target's own rows
      must be compared with them. */
  datatype Scan = Scan(
    plan: map<int, Disposition>,
    last: int,
    anchor: string,
    scanned: nat,
    reachedEnd: bool,
    keys: Option<set<Pair>>)

  function WithKey(keys: set<Pair>, e: Event): set<Pair> {
    if Reconstructing(e.etype) && e.rec.chash != "" then keys + {(e.rec.ns, e.rec.chash)} else keys
  }

  lemma KeysSnoc(done: seq<Event>, e: Event)
    ensures SourceKeys(done + [e]) == WithKey(SourceKeys(done), e)
  {
  }

  /** The identities of `done` are collected, if they are wanted. */
  ghost predicate Collected(keys: Option<set<Pair>>, done: seq<Event>, wanted: bool) {
    keys == if wanted then Some(SourceKeys(done)) else None
  }

  function Collect(keys: Option<set<Pair>>, e: Event): Option<set<Pair>> {
    if keys.Some? then Some(WithKey(keys.value, e)) else None
  }

  lemma CollectOne(keys: Option<set<Pair>>, done: seq<Event>, e: Event, wanted: bool)
    requires Collected(keys, done, wanted)
    ensures Collected(Collect(keys, e), done + [e], wanted)
  {
    KeysSnoc(done, e);
  }

  /** A scan covers the window `win` out of everything in scope, `all`. */
  ghost predicate Scanned(s: Scan, win: seq<Event>, ds: seq<Disposition>, all: seq<Event>, c: Cursor, wanted: bool) {
    && Recorded(s.plan, win, ds) && s.scanned == |win| && Collected(s.keys, win, wanted)
    && s.last == Advance(c, win).seqNo && s.anchor == Advance(c, win).anchor
    && (s.reachedEnd <==> |win| == |all|)
  }

  /** What a scan is about: the events in scope, the window, and the plan to reproduce. */
  datatype Goal = Goal(all: seq<Event>, n: nat, v0: View, src: Identity, scope: set<EventType>, db: DB, c: Cursor, wanted: bool)

  /** The goal is a scan of this source from this cursor. */
  ghost predicate Aimed(g: Goal, es: seq<Event>, src: Identity, c: Cursor) {
    && Increasing(es) && c.seqNo >= 0 && c == g.c && g.all == InScope(es, c.ns, c.seqNo)
    && Persistent(src) && src == g.src && c.types == g.scope
  }

  /** The scan has planned `done`, the first part of the window. */
  ghost predicate Progress(st: PlanState, s: Scan, done: seq<Event>, ds: seq<Disposition>, v: View, g: Goal)
    reads st
  {
    && |done| <= g.n <= |g.all| && done == g.all[..|done|]
    && Planning(st, done, ds, v, g.v0, g.src, g.scope, g.db) && v.prev == s.last
    && Recorded(s.plan, done, ds) && s.scanned == |done| && Collected(s.keys, done, g.wanted)
    && s.last == Advance(g.c, done).seqNo && s.anchor == Advance(g.c, done).anchor
  }

  /** Where the scan stops for the budget, and whether anything is left then. */
  ghost predicate Bounded(s: Scan, stop: bool, max: Option<nat>, g: Goal) {
    && g.n == (if max.Some? && max.value < |g.all| then max.value else |g.all|)
    && (stop ==> s.scanned == g.n && (s.reachedEnd <==> g.n == |g.all|))
    && (!stop ==> s.reachedEnd && (max.Some? ==> s.scanned < max.value))
  }

  /** Plan one event of a page and count it. */
  method PlanNext(st: PlanState, e: Event, s: Scan, ghost done: seq<Event>, ghost ds: seq<Disposition>, ghost v: View,
                  src: Identity, scope: set<EventType>, ghost g: Goal)
      returns (r: Result<Scan, Reason>, ghost done': seq<Event>, ghost ds': seq<Disposition>, ghost v': View)
    requires Persistent(src) && src == g.src && scope == g.scope
    requires Progress(st, s, done, ds, v, g) && |done| < g.n && e == g.all[|done|] && Covers(st.Fetched(), e)
    requires forall i, j :: 0 <= i < j < |g.all| ==> g.all[i].seqNo < g.all[j].seqNo
    modifies st`live, st`owner, st`tombs, st`mutated, st`created
    ensures r.Err? ==> PlanAll(done + [e], src, scope, g.v0) == Raised(r.error)
    ensures r.Ok? ==> done' == done + [e] && Progress(st, r.value, done', ds', v', g) && r.value.reachedEnd == s.reachedEnd
  {
    var step;
    step, v' := PlanEvent(st, e, src, scope, done, ds, v, g.v0, g.db, s.last);
    done', ds' := done + [e], ds;
    if step.Err? {
      return Err(step.error), done', ds', v';
    }
    assert forall f <- done :: f.seqNo < e.seqNo;
    RecordOne(s.plan, done, ds, e, step.value);
    CollectOne(s.keys, done, e, g.wanted);
    ds' := ds + [step.value];
    r := Ok(Scan(s.plan[e.seqNo := step.value], e.seqNo, e.eventId, s.scanned + 1, s.reachedEnd, Collect(s.keys, e)));
  }

  /** The page after the first `k` events of the scope. */
  method FetchPage(source: MemoryDB, c: Cursor, pos: int, limit: nat, ghost k: nat, ghost all: seq<Event>) returns (page: seq<Event>)
    requires Increasing(source.events) && c.seqNo >= 0 && all == InScope(source.events, c.ns, c.seqNo)
    requires k <= |all| && pos == (if k == 0 then c.seqNo else all[k - 1].seqNo) && limit > 0
    ensures k + |page| <= |all| && page == all[k..k + |page|]
    ensures |page| < limit ==> k + |page| == |all|
  {
    NextPage(source.events, c.ns, c.seqNo, k, pos);
    page := source.QueryEvents(c.ns, pos, limit);
  }

  /** Stop the scan when the budget is used up, noting whether anything is left in scope. */
  method CheckBudget(source: MemoryDB, c: Cursor, s: Scan, max: Option<nat>, restOfPage: bool, ghost done: seq<Event>, ghost g: Goal)
      returns (s': Scan, stop: bool)
    requires Aimed(g, source.events, source.identity, c)
    requires s.scanned == |done| <= g.n <= |g.all| && done == g.all[..|done|] && s.last == Advance(c, done).seqNo && |done| > 0
    requires s.reachedEnd && (restOfPage ==> |done| < |g.all|)
    requires g.n == if max.Some? && max.value < |g.all| then max.value else |g.all|
    ensures s' == s.(reachedEnd := s'.reachedEnd) && Bounded(s', stop, max, g)
  {
    s', stop := s, false;
    if max.Some? && s.scanned >= max.value {
      var more := FetchPage(source, c, s.last, 1, |done|, g.all);
      s', stop := s.(reachedEnd := !(restOfPage || |more| > 0)), true;
    }
  }

  /** Plan one event and check the budget. */
  method PlanCounted(st: PlanState, source: MemoryDB, e: Event, s: Scan, max: Option<nat>, c: Cursor, restOfPage: bool,
                     ghost done: seq<Event>, ghost ds: seq<Disposition>, ghost v: View, ghost g: Goal)
      returns (r: Result<Scan, Reason>, stop: bool, ghost done': seq<Event>, ghost ds': seq<Disposition>, ghost v': View)
    requires Aimed(g, source.events, source.identity, c)
    requires Progress(st, s, done, ds, v, g) && Bounded(s, false, max, g)
    requires |done| < |g.all| && e == g.all[|done|] && Covers(st.Fetched(), e)
    requires restOfPage ==> |done| + 1 < |g.all|
    modifies st`live, st`owner, st`tombs, st`mutated, st`created
    ensures r.Err? ==> PlanAll(g.all[..g.n], g.src, g.scope, g.v0) == Raised(r.error)
    ensures r.Ok? ==> |done'| == |done| + 1 && Progress(st, r.value, done', ds', v', g) && Bounded(r.value, stop, max, g)
  {
    ghost var tried := done + [e];
    stop := false;
    InScopeInOrder(source.events, c.ns, c.seqNo);
    r, done', ds', v' := PlanNext(st, e, s, done, ds, v, source.identity, c.types, g);
    if r.Err? {
      RaisesLater(tried, g, r.error);
      return;
    }
    var s';
    s', stop := CheckBudget(source, c, r.value, max, restOfPage, done', g);
    r := Ok(s');
  }

  /** The events of one page, until the budget is used up. */
  method PlanPage(st: PlanState, source: MemoryDB, page: seq<Event>, s0: Scan, max: Option<nat>, c: Cursor,
                  ghost done0: seq<Event>, ghost ds0: seq<Disposition>, ghost v: View, ghost g: Goal)
      returns (r: Result<Scan, Reason>, stop: bool, ghost done: seq<Event>, ghost ds: seq<Disposition>, ghost v': View)
    requires Aimed(g, source.events, source.identity, c)
    requires Progress(st, s0, done0, ds0, v, g) && Bounded(s0, false, max, g)
    requires |done0| + |page| <= |g.all| && page == g.all[|done0|..|done0| + |page|]
    requires forall e <- page :: Covers(st.Fetched(), e)
    modifies st`live, st`owner, st`tombs, st`mutated, st`created
    ensures r.Err? ==> PlanAll(g.all[..g.n], g.src, g.scope, g.v0) == Raised(r.error)
    ensures r.Ok? ==> Progress(st, r.value, done, ds, v', g) && Bounded(r.value, stop, max, g)
    ensures r.Ok? && !stop ==> |done| == |done0| + |page|
  {
    r, done, ds, v', stop := Ok(s0), done0, ds0, v, false;
    var i := 0;
    while i < |page| && !stop
      invariant 0 <= i <= |page| && |done| == |done0| + i
      invariant r.Ok? && Progress(st, r.value, done, ds, v', g) && Bounded(r.value, stop, max, g)
      invariant forall e <- page :: Covers(st.Fetched(), e)
    {
      r, stop, done, ds, v' := PlanCounted(st, source, page[i], r.value, max, c, i + 1 < |page|, done, ds, v', g);
      if r.Err? {
        return;
      }
      i := i + 1;
    }
  }

  /** A window raises the error of its first part. */
  lemma RaisesLater(part: seq<Event>, g: Goal, r: Reason)
    requires |part| <= g.n <= |g.all| && part == g.all[..|part|]
    requires PlanAll(part, g.src, g.scope, g.v0) == Raised(r)
    ensures PlanAll(g.all[..g.n], g.src, g.scope, g.v0) == Raised(r)
  {
    assert g.all[..g.n] == part + g.all[|part|..g.n];
    PlanConcat(part, g.all[|part|..g.n], g.src, g.scope, g.v0);
  }

  /** Fetch the next page and load what its events may consult. */
  method LoadPage(st: PlanState, source: MemoryDB, target: MemoryDB, s: Scan, c: Cursor,
                  ghost done: seq<Event>, ghost ds: seq<Disposition>, ghost v: View, ghost g: Goal)
      returns (page: seq<Event>)
    requires Aimed(g, source.events, source.identity, c)
    requires target.Valid() && g.db == target.Data()
    requires Progress(st, s, done, ds, v, g)
    modifies st
    ensures Progress(st, s, done, ds, v, g)
    ensures |done| + |page| <= |g.all| && page == g.all[|done|..|done| + |page|]
    ensures |page| < PAGE ==> |done| + |page| == |g.all|
    ensures forall e <- page :: Covers(st.Fetched(), e)
  {
    page := FetchPage(source, c, s.last, PAGE, |done|, g.all);
    if page != [] { st.Load(target, page, v); }
  }

  /** Fetch, load and plan the next page. */
  method PlanNextPage(st: PlanState, source: MemoryDB, target: MemoryDB, s0: Scan, max: Option<nat>, c: Cursor,
                      ghost done0: seq<Event>, ghost ds0: seq<Disposition>, ghost v: View, ghost g: Goal)
      returns (r: Result<Scan, Reason>, finished: bool, ghost done: seq<Event>, ghost ds: seq<Disposition>, ghost v': View)
    requires Aimed(g, source.events, source.identity, c)
    requires target.Valid() && g.db == target.Data()
    requires Progress(st, s0, done0, ds0, v, g) && Bounded(s0, false, max, g)
    modifies st
    ensures r.Err? ==> PlanAll(g.all[..g.n], g.src, g.scope, g.v0) == Raised(r.error)
    ensures r.Ok? ==> Progress(st, r.value, done, ds, v', g) && (finished || Bounded(r.value, false, max, g))
    ensures r.Ok? && finished ==> |done| == g.n && (r.value.reachedEnd <==> g.n == |g.all|)
    ensures r.Ok? && !finished ==> |done| > |done0|
  {
    done, ds, v' := done0, ds0, v;
    var page := LoadPage(st, source, target, s0, c, done0, ds0, v, g);
    if page == [] {
      return Ok(s0), true, done, ds, v';
    }
    var stop;
    r, stop, done, ds, v' := PlanPage(st, source, page, s0, max, c, done0, ds0, v, g);
    finished := stop || |page| < PAGE;
  }

  /** Page after page until the window is planned. */
  method ScanPages(st: PlanState, source: MemoryDB, target: MemoryDB, s0: Scan, max: Option<nat>, c: Cursor, ghost g: Goal)
      returns (r: Result<Scan, Reason>, ghost ds: seq<Disposition>, ghost v: View)
    requires Aimed(g, source.events, source.identity, c)
    requires target.Valid() && g.db == target.Data()
    requires g.n <= |g.all| && Progress(st, s0, g.all[..0], [], g.v0, g) && Bounded(s0, false, max, g)
    modifies st
    ensures g.n <= |g.all|
    ensures r.Err? ==> PlanAll(g.all[..g.n], g.src, g.scope, g.v0) == Raised(r.error)
    ensures r.Ok? ==> Progress(st, r.value, g.all[..g.n], ds, v, g) && (r.value.reachedEnd <==> g.n == |g.all|)
  {
    var s, finished := s0, false;
    ghost var done := g.all[..0];
    ds, v := [], g.v0;
    while !finished
      invariant Progress(st, s, done, ds, v, g)
      invariant finished ==> |done| == g.n && (s.reachedEnd <==> g.n == |g.all|)
      invariant !finished ==> Bounded(s, false, max, g)
      decreases !finished, |g.all| - |done|
    {
      var next;
      next, finished, done, ds, v := PlanNextPage(st, source, target, s, max, c, done, ds, v, g);
      if next.Err? {
        return Err(next.error), ds, v;
      }
      s := next.value;
    }
    r := Ok(s);
  }

  /** Pass 1: plan the window page by page, loading only what each page needs. The plan, or the
      first error, is the one of planning against the whole target loaded up front. */
  method PlanWindow(source: MemoryDB, target: MemoryDB, c: Cursor, max: Option<nat>, wanted: bool) returns (r: Result<Scan, Reason>)
    requires source.Valid() && target.Valid() && Persistent(source.identity)
    requires c.seqNo >= 0 && (max.Some? ==> max.value > 0)
    ensures var all := InScope(source.events, c.ns, c.seqNo);
            var win := Window(source.events, c.ns, c.seqNo, max);
            match PlanAll(win, source.identity, c.types, EagerView(target.Data(), c.seqNo))
            case Raised(e) => r == Err(e)
            case Planned(ds, _) => r.Ok? && Scanned(r.value, win, ds, all, c, wanted)
  {
    var st := new PlanState();
    ghost var all := InScope(source.events, c.ns, c.seqNo);
    ghost var win := Window(source.events, c.ns, c.seqNo, max);
    ghost var g := Goal(all, |win|, EagerView(target.Data(), c.seqNo), source.identity, c.types, target.Data(), c, wanted);
    NothingLoaded(g.db, c.seqNo);
    InScopeInOrder(source.events, c.ns, c.seqNo);
    assert win == all[..g.n] && SourceKeys(all[..0]) == {};
    var s := Scan(map[], c.seqNo, c.anchor, 0, true, if wanted then Some({}) else None);
    ghost var ds, v;
    r, ds, v := ScanPages(st, source, target, s, max, c, g);
  }
}
