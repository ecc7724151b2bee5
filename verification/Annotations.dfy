/** The deterministic merge of annotation envelopes, and its use on stored rows. */
module Annotations {

  import opened Records

  const MAX_ENVELOPE_BYTES := 128 * 1024
  const MAX_ITEMS := 1000

  /** An annotation item by its id and its canonical text (object keys sorted): items are equal
      when their canonical texts are. */
  datatype Item = Item(id: Id, canonical: string)

  /** An envelope; a missing or empty `producers` is the empty map. */
  datatype Envelope = Envelope(schema: int, namespaces: map<string, seq<Item>>, producers: map<string, string>)

  /** An incoming item that differs from the target's item of the same id. */
  datatype Conflict = Conflict(namespace: string, target: Item, incoming: Item)

  // ---------- merging the items of one namespace ----------

  /** by_id.get: the last item with the id. */
  function Find(items: seq<Item>, id: Id): Option<Item> {
    if items == [] then None
    else
      var m := |items| - 1;
      if items[m].id == id then Some(items[m]) else Find(items[..m], id)
  }

  lemma {:induction false} FindFinds(items: seq<Item>, id: Id)
    ensures var r := Find(items, id);
            (r.Some? ==> r.value in items && r.value.id == id) && (r.None? <==> forall x :: x in items ==> x.id != id)
  {
    if items != [] {
      var m := |items| - 1;
      FindFinds(items[..m], id);
      assert items == items[..m] + [items[m]];
    }
  }

  function AddItem(items: seq<Item>, x: Item): seq<Item> {
    if Find(items, x.id).None? then items + [x] else items
  }

  /** The incoming items one by one: those with a new id are appended. */
  function MergeItems(target: seq<Item>, incoming: seq<Item>): seq<Item> {
    if incoming == [] then target
    else
      var m := |incoming| - 1;
      AddItem(MergeItems(target, incoming[..m]), incoming[m])
  }

  function ConflictOf(items: seq<Item>, ns: string, x: Item): seq<Conflict> {
    var found := Find(items, x.id);
    if found.Some? && found.value.canonical != x.canonical then [Conflict(ns, found.value, x)] else []
  }

  function Conflicts(target: seq<Item>, ns: string, incoming: seq<Item>): seq<Conflict> {
    if incoming == [] then []
    else
      var m := |incoming| - 1;
      Conflicts(target, ns, incoming[..m]) + ConflictOf(MergeItems(target, incoming[..m]), ns, incoming[m])
  }

  /** The rule that validation checks: no id twice in a namespace. */
  predicate UniqueIds(items: seq<Item>) {
    forall i, j :: 0 <= i < j < |items| ==> items[i].id != items[j].id
  }

  lemma {:induction false} MergeSnoc(target: seq<Item>, incoming: seq<Item>, x: Item)
    ensures MergeItems(target, incoming + [x]) == AddItem(MergeItems(target, incoming), x)
  {
    assert (incoming + [x])[..|incoming|] == incoming;
  }

  /** The ids after a merge are the ids of both sides. */
  lemma {:induction false} MergedIds(target: seq<Item>, incoming: seq<Item>, id: Id)
    ensures Find(MergeItems(target, incoming), id).None? <==> Find(target, id).None? && Find(incoming, id).None?
  {
    if incoming != [] {
      var m := |incoming| - 1;
      MergedIds(target, incoming[..m], id);
      MergedIds(target, incoming[..m], incoming[m].id);
    }
  }

  lemma FindSnoc(items: seq<Item>, x: Item, id: Id)
    ensures Find(items + [x], id) == if x.id == id then Some(x) else Find(items, id)
  {
    assert (items + [x])[..|items|] == items;
  }

  /** Merging is associative on item lists, whatever the lists. */
  lemma {:induction false} MergeItemsIsAssociative(a: seq<Item>, b: seq<Item>, c: seq<Item>)
    ensures MergeItems(MergeItems(a, b), c) == MergeItems(a, MergeItems(b, c))
    decreases |c|
  {
    if c != [] {
      var m := |c| - 1;
      var x, left := c[m], MergeItems(MergeItems(a, b), c[..m]);
      MergeItemsIsAssociative(a, b, c[..m]);
      var inner := MergeItems(b, c[..m]);
      if Find(inner, x.id).None? {
        MergeSnoc(a, inner, x);
      } else {
        MergedIds(a, inner, x.id);
      }
    }
  }

  /** Left-biased ordered union: the target's items stay in front, and what is appended are the
      incoming items with new ids, in their order. */
  lemma {:induction false} MergeAppendsNewIds(target: seq<Item>, incoming: seq<Item>)
    requires UniqueIds(incoming)
    ensures MergeItems(target, incoming) == target + NewItems(target, incoming)
    decreases |incoming|
  {
    if incoming == [] {
      assert target + [] == target;
    } else {
      var m := |incoming| - 1;
      MergeAppendsNewIds(target, incoming[..m]);
      FoundUnchanged(target, incoming, m);
      AppendStep(target, incoming);
    }
  }

  lemma AppendStep(target: seq<Item>, incoming: seq<Item>)
    requires incoming != []
    requires var before := incoming[..|incoming| - 1];
             MergeItems(target, before) == target + NewItems(target, before) &&
             Find(MergeItems(target, before), incoming[|incoming| - 1].id) == Find(target, incoming[|incoming| - 1].id)
    ensures MergeItems(target, incoming) == target + NewItems(target, incoming)
  {
    var m := |incoming| - 1;
    if Find(target, incoming[m].id).None? {
      assert NewItems(target, incoming) == NewItems(target, incoming[..m]) + [incoming[m]];
      Regroup(target, NewItems(target, incoming[..m]), incoming[m]);
    }
  }

  lemma Regroup(a: seq<Item>, b: seq<Item>, x: Item)
    ensures (a + b) + [x] == a + (b + [x])
  {
  }

  /** A merge keeps ids unique, whatever comes in. */
  lemma {:induction false} MergeKeepsUniqueIds(target: seq<Item>, incoming: seq<Item>)
    requires UniqueIds(target)
    ensures UniqueIds(MergeItems(target, incoming))
  {
    if incoming != [] {
      var m := |incoming| - 1;
      MergeKeepsUniqueIds(target, incoming[..m]);
      FindFinds(MergeItems(target, incoming[..m]), incoming[m].id);
    }
  }

  function NewItems(target: seq<Item>, incoming: seq<Item>): seq<Item> {
    if incoming == [] then []
    else
      var m := |incoming| - 1;
      var before := NewItems(target, incoming[..m]);
      if Find(target, incoming[m].id).None? then before + [incoming[m]] else before
  }

  /** The incoming items that the target has already, with the same content. */
  function EqualItems(target: seq<Item>, incoming: seq<Item>): seq<Item> {
    if incoming == [] then []
    else
      var m := |incoming| - 1;
      var before := EqualItems(target, incoming[..m]);
      if Find(target, incoming[m].id) == Some(incoming[m]) then before + [incoming[m]] else before
  }

  /** Every incoming item is added, equal to the target's, or a conflict. */
  lemma {:induction false} EveryItemIsAccountedFor(target: seq<Item>, ns: string, incoming: seq<Item>)
    requires UniqueIds(incoming)
    ensures |incoming| == |NewItems(target, incoming)| + |EqualItems(target, incoming)| + |Conflicts(target, ns, incoming)|
    decreases |incoming|
  {
    if incoming != [] {
      var m := |incoming| - 1;
      EveryItemIsAccountedFor(target, ns, incoming[..m]);
      FoundUnchanged(target, incoming, m);
      OneMoreAccountedFor(target, ns, incoming, incoming[m], Find(target, incoming[m].id));
    }
  }

  lemma OneMoreAccountedFor(target: seq<Item>, ns: string, incoming: seq<Item>, x: Item, found: Option<Item>)
    requires incoming != [] && x == incoming[|incoming| - 1] && found == Find(target, x.id)
    requires found == Find(MergeItems(target, incoming[..|incoming| - 1]), x.id)
    ensures var before := incoming[..|incoming| - 1];
            |NewItems(target, incoming)| == |NewItems(target, before)| + (if found.None? then 1 else 0) &&
            |EqualItems(target, incoming)| == |EqualItems(target, before)| + (if found == Some(x) then 1 else 0) &&
            |Conflicts(target, ns, incoming)| ==
              |Conflicts(target, ns, before)| + (if found.Some? && found != Some(x) then 1 else 0)
  {
    FindFinds(target, x.id);
  }

  /** An incoming item is in the result or kept in a conflict. */
  lemma {:induction false} NoItemIsLost(target: seq<Item>, ns: string, incoming: seq<Item>, x: Item)
    requires UniqueIds(incoming) && x in incoming
    ensures x in MergeItems(target, incoming) || exists c :: c in Conflicts(target, ns, incoming) && c.incoming == x
    decreases |incoming|
  {
    var m := |incoming| - 1;
    var last, before := incoming[m], MergeItems(target, incoming[..m]);
    assert incoming == incoming[..m] + [last];
    if x == last {
      FindFinds(before, x.id);
      if ConflictOf(before, ns, x) != [] {
        assert ConflictOf(before, ns, x)[0] in Conflicts(target, ns, incoming);
      }
    } else {
      NoItemIsLost(target, ns, incoming[..m], x);
      if x !in before {
        var c :| c in Conflicts(target, ns, incoming[..m]) && c.incoming == x;
        assert c in Conflicts(target, ns, incoming);
      }
    }
  }

  /** With unique incoming ids each is looked up in the target alone. */
  lemma FoundUnchanged(target: seq<Item>, incoming: seq<Item>, m: nat)
    requires UniqueIds(incoming) && m < |incoming|
    ensures Find(MergeItems(target, incoming[..m]), incoming[m].id) == Find(target, incoming[m].id)
  {
    var id := incoming[m].id;
    assert forall i :: 0 <= i < m ==> incoming[i].id != id;
    OtherIdsKeep(target, incoming[..m], id);
  }

  lemma {:induction false} OtherIdsKeep(target: seq<Item>, incoming: seq<Item>, id: Id)
    requires forall x :: x in incoming ==> x.id != id
    ensures Find(MergeItems(target, incoming), id) == Find(target, id)
  {
    if incoming != [] {
      var m := |incoming| - 1;
      var before := MergeItems(target, incoming[..m]);
      assert incoming[m] in incoming;
      OtherIdsKeep(target, incoming[..m], id);
      FindSnoc(before, incoming[m], id);
    }
  }

  /** Items the target holds are found unchanged after any merge. */
  lemma {:induction false} TargetKept(target: seq<Item>, incoming: seq<Item>, id: Id)
    requires Find(target, id).Some?
    ensures Find(MergeItems(target, incoming), id) == Find(target, id)
  {
    if incoming != [] {
      var m := |incoming| - 1;
      TargetKept(target, incoming[..m], id);
      FindSnoc(MergeItems(target, incoming[..m]), incoming[m], id);
    }
  }

  /** Item `m` was new when it came and is found after the merge, or is shadowed by the target's. */
  ghost predicate Steady(target: seq<Item>, merged: seq<Item>, incoming: seq<Item>, m: nat)
    requires m < |incoming|
  {
    var x := incoming[m];
    Find(MergeItems(target, incoming[..m]), x.id) == Find(target, x.id) &&
    Find(merged, x.id) == if Find(target, x.id).Some? then Find(target, x.id) else Some(x)
  }

  /** Merging the same items once more changes nothing and reports the same conflicts. */
  lemma SecondMergeIsSilent(target: seq<Item>, ns: string, incoming: seq<Item>)
    requires UniqueIds(incoming)
    ensures var merged := MergeItems(target, incoming);
            MergeItems(merged, incoming) == merged && Conflicts(merged, ns, incoming) == Conflicts(target, ns, incoming)
  {
    var merged := MergeItems(target, incoming);
    forall m | 0 <= m < |incoming| ensures Steady(target, merged, incoming, m) {
      FoundUnchanged(target, incoming, m);
      LookedUpAgain(target, incoming, m);
    }
    SilentWhenSteady(target, merged, ns, incoming);
  }

  lemma {:induction false} SilentWhenSteady(target: seq<Item>, merged: seq<Item>, ns: string, incoming: seq<Item>)
    requires forall m :: 0 <= m < |incoming| ==> Steady(target, merged, incoming, m)
    ensures MergeItems(merged, incoming) == merged && Conflicts(merged, ns, incoming) == Conflicts(target, ns, incoming)
    decreases |incoming|
  {
    if incoming != [] {
      var n := |incoming| - 1;
      forall m | 0 <= m < n ensures Steady(target, merged, incoming[..n], m) {
        assert Steady(target, merged, incoming, m);
        assert incoming[..n][..m] == incoming[..m];
      }
      SilentWhenSteady(target, merged, ns, incoming[..n]);
      assert Steady(target, merged, incoming, n);
      SilentStep(target, merged, ns, incoming[..n], incoming[n], incoming);
    }
  }

  lemma SilentStep(target: seq<Item>, merged: seq<Item>, ns: string, before: seq<Item>, x: Item, after: seq<Item>)
    requires after == before + [x]
    requires MergeItems(merged, before) == merged && Conflicts(merged, ns, before) == Conflicts(target, ns, before)
    requires Find(MergeItems(target, before), x.id) == Find(target, x.id)
    requires Find(merged, x.id) == if Find(target, x.id).Some? then Find(target, x.id) else Some(x)
    ensures MergeItems(merged, after) == merged && Conflicts(merged, ns, after) == Conflicts(target, ns, after)
  {
    MergeSnoc(merged, before, x);
    ConflictsSnoc(merged, ns, before, x);
    ConflictsSnoc(target, ns, before, x);
  }

  lemma ConflictsSnoc(target: seq<Item>, ns: string, incoming: seq<Item>, x: Item)
    ensures Conflicts(target, ns, incoming + [x]) ==
            Conflicts(target, ns, incoming) + ConflictOf(MergeItems(target, incoming), ns, x)
  {
    assert (incoming + [x])[..|incoming|] == incoming;
  }

  /** After the merge an incoming id is found as the target's item or, if it had none, as itself. */
  lemma LookedUpAgain(target: seq<Item>, incoming: seq<Item>, m: nat)
    requires UniqueIds(incoming) && m < |incoming|
    ensures Find(MergeItems(target, incoming), incoming[m].id) ==
            if Find(target, incoming[m].id).Some? then Find(target, incoming[m].id) else Some(incoming[m])
  {
    var x := incoming[m];
    if Find(target, x.id).Some? {
      TargetKept(target, incoming, x.id);
    } else {
      FoundUnchanged(target, incoming, m);
      SplitAt(incoming, m);
      NewItemStays(target, incoming[..m], x, incoming[m + 1..]);
    }
  }

  lemma SplitAt(items: seq<Item>, m: nat)
    requires m < |items|
    ensures items == (items[..m] + [items[m]]) + items[m + 1..]
  {
  }

  lemma NewItemStays(target: seq<Item>, before: seq<Item>, x: Item, after: seq<Item>)
    requires Find(MergeItems(target, before), x.id).None?
    ensures Find(MergeItems(target, (before + [x]) + after), x.id) == Some(x)
  {
    MergeConcat(target, before + [x], after);
    MergeSnoc(target, before, x);
    FindSnoc(MergeItems(target, before), x, x.id);
    TargetKept(MergeItems(target, before + [x]), after, x.id);
  }

  lemma {:induction false} MergeConcat(target: seq<Item>, a: seq<Item>, b: seq<Item>)
    ensures MergeItems(target, a + b) == MergeItems(MergeItems(target, a), b)
    decreases |b|
  {
    if b == [] {
      assert a + b == a;
    } else {
      var m := |b| - 1;
      MergeConcat(target, a, b[..m]);
      assert a + b == (a + b[..m]) + [b[m]];
      MergeSnoc(target, a + b[..m], b[m]);
    }
  }

  // ---------- merging envelopes ----------

  type Namespaces = map<string, seq<Item>>

  function Get(m: Namespaces, ns: string): seq<Item> {
    if ns in m then m[ns] else []
  }

  /** `names` lists the keys once each; the program lists them sorted. */
  ghost predicate Lists(names: seq<string>, m: Namespaces) {
    (forall n :: n in names <==> n in m) && NoRepeats(names)
  }

  predicate NoRepeats(names: seq<string>) {
    forall i, j :: 0 <= i < j < |names| ==> names[i] != names[j]
  }

  function MergeNamespaces(target: Namespaces, incoming: Namespaces, names: seq<string>): Namespaces {
    if names == [] then target
    else
      var m := |names| - 1;
      MergeNamespaces(target, incoming, names[..m])[names[m] := MergeItems(Get(target, names[m]), Get(incoming, names[m]))]
  }

  function Grown(target: Namespaces, incoming: Namespaces, names: seq<string>): int {
    if names == [] then 0
    else
      var m := |names| - 1;
      var items := Get(target, names[m]);
      Grown(target, incoming, names[..m]) + (|MergeItems(items, Get(incoming, names[m]))| - |items|)
  }

  function AllConflicts(target: Namespaces, incoming: Namespaces, names: seq<string>): seq<Conflict> {
    if names == [] then []
    else
      var m := |names| - 1;
      AllConflicts(target, incoming, names[..m]) + Conflicts(Get(target, names[m]), names[m], Get(incoming, names[m]))
  }

  function CountItems(m: Namespaces, names: seq<string>): nat {
    if names == [] then 0 else CountItems(m, names[..|names| - 1]) + |Get(m, names[|names| - 1])|
  }

  datatype Outcome = Outcome(merged: Option<Envelope>, mergedItems: int, conflicts: seq<Conflict>)

  /** merge_annotations: no merged envelope means that nothing changed. */
  function Merge(target: Option<Envelope>, incoming: Option<Envelope>, names: seq<string>): Outcome {
    if incoming.None? then Outcome(None, 0, [])
    else if target.None? then Outcome(incoming, CountItems(incoming.value.namespaces, names), [])
    else
      var t, i := target.value, incoming.value;
      var added := Grown(t.namespaces, i.namespaces, names);
      var conflicts := AllConflicts(t.namespaces, i.namespaces, names);
      var producers := t.producers + i.producers;
      if added == 0 && producers == t.producers then Outcome(None, 0, conflicts)
      else Outcome(Some(Envelope(t.schema, MergeNamespaces(t.namespaces, i.namespaces, names), producers)), added, conflicts)
  }

  /** What the target is after the merge. */
  function After(target: Option<Envelope>, incoming: Option<Envelope>, names: seq<string>): Option<Envelope> {
    var merged := Merge(target, incoming, names).merged;
    if merged.Some? then merged else target
  }

  function Items(e: Option<Envelope>, ns: string): seq<Item> {
    if e.Some? then Get(e.value.namespaces, ns) else []
  }

  function Producers(e: Option<Envelope>): map<string, string> {
    if e.Some? then e.value.producers else map[]
  }

  ghost predicate Unique(e: Option<Envelope>) {
    forall ns :: UniqueIds(Items(e, ns))
  }

  ghost predicate Named(e: Option<Envelope>, names: seq<string>) {
    e.Some? ==> Lists(names, e.value.namespaces)
  }

  lemma {:induction false} MergedNamespace(target: Namespaces, incoming: Namespaces, names: seq<string>, ns: string)
    requires NoRepeats(names)
    ensures Get(MergeNamespaces(target, incoming, names), ns) ==
            if ns in names then MergeItems(Get(target, ns), Get(incoming, ns)) else Get(target, ns)
  {
    if names != [] {
      var m := |names| - 1;
      assert names == names[..m] + [names[m]];
      MergedNamespace(target, incoming, names[..m], ns);
    }
  }

  lemma {:induction false} MergeExtends(target: seq<Item>, incoming: seq<Item>)
    ensures target <= MergeItems(target, incoming)
  {
    if incoming != [] {
      MergeExtends(target, incoming[..|incoming| - 1]);
    }
  }

  lemma {:induction false} NeverShrinks(target: Namespaces, incoming: Namespaces, names: seq<string>)
    ensures Grown(target, incoming, names) >= 0
  {
    if names != [] {
      var m := |names| - 1;
      NeverShrinks(target, incoming, names[..m]);
      MergeExtends(Get(target, names[m]), Get(incoming, names[m]));
    }
  }

  lemma {:induction false} NothingGrown(target: Namespaces, incoming: Namespaces, names: seq<string>, ns: string)
    requires Grown(target, incoming, names) == 0 && ns in names
    ensures MergeItems(Get(target, ns), Get(incoming, ns)) == Get(target, ns)
  {
    var m := |names| - 1;
    assert names == names[..m] + [names[m]];
    NeverShrinks(target, incoming, names[..m]);
    MergeExtends(Get(target, names[m]), Get(incoming, names[m]));
    if ns != names[m] {
      NothingGrown(target, incoming, names[..m], ns);
    }
  }

  lemma {:induction false} MergeIntoNothing(incoming: seq<Item>, ns: string)
    requires UniqueIds(incoming)
    ensures MergeItems([], incoming) == incoming && Conflicts([], ns, incoming) == []
  {
    if incoming != [] {
      var m := |incoming| - 1;
      MergeIntoNothing(incoming[..m], ns);
      FoundUnchanged([], incoming, m);
      MergeSnoc([], incoming[..m], incoming[m]);
      ConflictsSnoc([], ns, incoming[..m], incoming[m]);
      assert incoming == incoming[..m] + [incoming[m]];
    }
  }

  /** The merge is the left-biased union of each namespace and the right-biased union of the
      producers, also when it reports no change. */
  lemma MergeIsUnion(target: Option<Envelope>, incoming: Option<Envelope>, names: seq<string>, ns: string)
    requires Named(incoming, names) && Unique(incoming)
    ensures var after := After(target, incoming, names);
            Items(after, ns) == MergeItems(Items(target, ns), Items(incoming, ns)) &&
            Producers(after) == Producers(target) + Producers(incoming)
  {
    if target.Some? && incoming.Some? {
      var t, i := target.value.namespaces, incoming.value.namespaces;
      MergedNamespace(t, i, names, ns);
      if Grown(t, i, names) == 0 && ns in names {
        NothingGrown(t, i, names, ns);
      }
    } else if incoming.Some? {
      MergeIntoNothing(Items(incoming, ns), ns);
    }
  }

  lemma MergeKeepsUnique(target: Option<Envelope>, incoming: Option<Envelope>, names: seq<string>)
    requires Named(incoming, names) && Unique(target) && Unique(incoming)
    ensures Unique(After(target, incoming, names))
  {
    forall ns ensures UniqueIds(Items(After(target, incoming, names), ns)) {
      MergeIsUnion(target, incoming, names, ns);
      MergeKeepsUniqueIds(Items(target, ns), Items(incoming, ns));
    }
  }

  /** Merging b and then c is merging the merge of b and c, as item lists and as producers. */
  lemma MergeIsAssociative(a: Option<Envelope>, b: Option<Envelope>, c: Option<Envelope>,
                           bNames: seq<string>, cNames: seq<string>, bcNames: seq<string>, ns: string)
    requires Named(b, bNames) && Named(c, cNames) && Named(After(b, c, cNames), bcNames)
    requires Unique(b) && Unique(c)
    ensures var left, right := After(After(a, b, bNames), c, cNames), After(a, After(b, c, cNames), bcNames);
            Items(left, ns) == Items(right, ns) && Producers(left) == Producers(right)
  {
    var ab, bc := After(a, b, bNames), After(b, c, cNames);
    MergeIsUnion(a, b, bNames, ns);
    MergeIsUnion(ab, c, cNames, ns);
    MergeIsUnion(b, c, cNames, ns);
    MergeKeepsUnique(b, c, cNames);
    MergeIsUnion(a, bc, bcNames, ns);
    BothAssociate(Items(a, ns), Items(b, ns), Items(c, ns), Producers(a), Producers(b), Producers(c));
  }

  lemma BothAssociate(a: seq<Item>, b: seq<Item>, c: seq<Item>,
                      p: map<string, string>, q: map<string, string>, r: map<string, string>)
    ensures MergeItems(MergeItems(a, b), c) == MergeItems(a, MergeItems(b, c)) && (p + q) + r == p + (q + r)
  {
    MergeItemsIsAssociative(a, b, c);
  }

  /** A second merge of the same envelope changes nothing and reports the same conflicts. */
  lemma SecondMergeChangesNothing(target: Option<Envelope>, incoming: Option<Envelope>, names: seq<string>)
    requires Named(incoming, names) && Unique(incoming)
    ensures var again := Merge(After(target, incoming, names), incoming, names);
            again.merged.None? && again.mergedItems == 0 && again.conflicts == Merge(target, incoming, names).conflicts
  {
    if incoming.Some? {
      var after := After(target, incoming, names);
      MergeIsUnion(target, incoming, names, "");
      assert Producers(after) + Producers(incoming) == Producers(after);
      var t := if target.Some? then target.value.namespaces else map[];
      forall ns ensures UniqueIds(Get(incoming.value.namespaces, ns)) {
        assert UniqueIds(Items(incoming, ns));
      }
      forall ns ensures Get(after.value.namespaces, ns) == MergeItems(Get(t, ns), Get(incoming.value.namespaces, ns)) {
        MergeIsUnion(target, incoming, names, ns);
        assert Items(target, ns) == Get(t, ns);
      }
      AgainSilent(t, after.value.namespaces, incoming.value.namespaces, names);
      if target.None? {
        NothingConflicts(incoming.value.namespaces, names);
      }
    }
  }

  lemma {:induction false} AgainSilent(target: Namespaces, after: Namespaces, incoming: Namespaces, names: seq<string>)
    requires forall ns :: UniqueIds(Get(incoming, ns))
    requires forall ns :: Get(after, ns) == MergeItems(Get(target, ns), Get(incoming, ns))
    ensures Grown(after, incoming, names) == 0
    ensures AllConflicts(after, incoming, names) == AllConflicts(target, incoming, names)
  {
    if names != [] {
      var m := |names| - 1;
      AgainSilent(target, after, incoming, names[..m]);
      MergedAgain(Get(target, names[m]), names[m], Get(incoming, names[m]), Get(after, names[m]));
    }
  }

  lemma MergedAgain(target: seq<Item>, ns: string, incoming: seq<Item>, merged: seq<Item>)
    requires UniqueIds(incoming) && merged == MergeItems(target, incoming)
    ensures MergeItems(merged, incoming) == merged && Conflicts(merged, ns, incoming) == Conflicts(target, ns, incoming)
  {
    SecondMergeIsSilent(target, ns, incoming);
  }

  lemma {:induction false} NothingConflicts(incoming: Namespaces, names: seq<string>)
    requires forall ns :: UniqueIds(Get(incoming, ns))
    ensures AllConflicts(map[], incoming, names) == []
  {
    if names != [] {
      var m := |names| - 1;
      NothingConflicts(incoming, names[..m]);
      MergeIntoNothing(Get(incoming, names[m]), names[m]);
    }
  }

  // ---------- the number of items ----------

  ghost function TotalItems(m: Namespaces): nat
    decreases |m|
  {
    if m == map[] then 0
    else
      var k :| k in m;
      |m[k]| + TotalItems(m - {k})
  }

  lemma {:induction false} TotalWithout(m: Namespaces, k: string)
    requires k in m
    ensures TotalItems(m) == |m[k]| + TotalItems(m - {k})
    decreases |m|
  {
    var j :| j in m && TotalItems(m) == |m[j]| + TotalItems(m - {j});
    if j != k {
      TotalWithout(m - {j}, k);
      TotalWithout(m - {k}, j);
      assert m - {j} - {k} == m - {k} - {j};
    }
  }

  lemma TotalUpdated(m: Namespaces, k: string, items: seq<Item>)
    ensures TotalItems(m[k := items]) == TotalItems(m) - |Get(m, k)| + |items|
  {
    TotalWithout(m[k := items], k);
    assert m[k := items] - {k} == m - {k};
    if k in m {
      TotalWithout(m, k);
    } else {
      assert m - {k} == m;
    }
  }

  lemma {:induction false} MergedTotal(target: Namespaces, incoming: Namespaces, names: seq<string>)
    requires NoRepeats(names)
    ensures TotalItems(MergeNamespaces(target, incoming, names)) == TotalItems(target) + Grown(target, incoming, names)
  {
    if names != [] {
      var m := |names| - 1;
      MergedTotal(target, incoming, names[..m]);
      MergedNamespace(target, incoming, names[..m], names[m]);
      TotalUpdated(MergeNamespaces(target, incoming, names[..m]), names[m],
                   MergeItems(Get(target, names[m]), Get(incoming, names[m])));
    }
  }

  lemma {:induction false} CountIsTotal(m: Namespaces, names: seq<string>)
    requires Lists(names, m)
    ensures CountItems(m, names) == TotalItems(m)
    decreases |names|
  {
    if names != [] {
      var n := |names| - 1;
      var k, rest := names[n], m - {names[n]};
      assert names == names[..n] + [k];
      assert forall x :: x in rest <==> x in names[..n];
      CountIsTotal(rest, names[..n]);
      CountWithout(m, k, names[..n]);
      TotalWithout(m, k);
    } else {
      assert m == map[];
    }
  }

  lemma {:induction false} CountWithout(m: Namespaces, k: string, names: seq<string>)
    requires k !in names
    ensures CountItems(m - {k}, names) == CountItems(m, names)
  {
    if names != [] {
      CountWithout(m, k, names[..|names| - 1]);
    }
  }

  ghost function Size(e: Option<Envelope>): nat {
    if e.Some? then TotalItems(e.value.namespaces) else 0
  }

  /** The reported number of merged items is what the target has grown by. */
  lemma MergedItemsIsGrowth(target: Option<Envelope>, incoming: Option<Envelope>, names: seq<string>)
    requires Named(incoming, names)
    ensures Size(After(target, incoming, names)) == Size(target) + Merge(target, incoming, names).mergedItems
  {
    if target.Some? && incoming.Some? {
      MergedTotal(target.value.namespaces, incoming.value.namespaces, names);
    } else if incoming.Some? {
      CountIsTotal(incoming.value.namespaces, names);
    }
  }

  // ---------- the program ----------

  /** The unique-id rule of validation. */
  method HasUniqueIds(items: seq<Item>) returns (ok: bool)
    ensures ok <==> UniqueIds(items)
  {
    var seen: set<Id> := {};
    for i := 0 to |items|
      invariant UniqueIds(items[..i]) && forall id :: id in seen <==> exists j :: 0 <= j < i && items[j].id == id
    {
      if items[i].id in seen { return false; }
      seen := seen + {items[i].id};
    }
    assert items[..|items|] == items;
    return true;
  }

  ghost predicate Indexes(byId: map<Id, Item>, items: seq<Item>) {
    forall id :: Find(items, id) == if id in byId then Some(byId[id]) else None
  }

  method IndexById(items: seq<Item>) returns (byId: map<Id, Item>)
    ensures Indexes(byId, items)
  {
    byId := map[];
    for i := 0 to |items|
      invariant Indexes(byId, items[..i])
    {
      IndexesSnoc(byId, items[..i], items[i]);
      assert items[..i + 1] == items[..i] + [items[i]];
      byId := byId[items[i].id := items[i]];
    }
    assert items[..|items|] == items;
  }

  lemma IndexesSnoc(byId: map<Id, Item>, items: seq<Item>, x: Item)
    requires Indexes(byId, items)
    ensures Indexes(byId[x.id := x], items + [x])
  {
    forall id ensures Find(items + [x], id) == if id in byId[x.id := x] then Some(byId[x.id := x][id]) else None {
      FindSnoc(items, x, id);
    }
  }

  /** The loop over the items of one incoming namespace. */
  method AppendNew(target: seq<Item>, ns: string, incoming: seq<Item>)
    returns (items: seq<Item>, added: int, conflicts: seq<Conflict>)
    ensures items == MergeItems(target, incoming) && added == |items| - |target|
    ensures conflicts == Conflicts(target, ns, incoming)
  {
    items, added, conflicts := target, 0, [];
    var byId := IndexById(target);
    for i := 0 to |incoming|
      invariant items == MergeItems(target, incoming[..i]) && added == |items| - |target|
      invariant conflicts == Conflicts(target, ns, incoming[..i]) && Indexes(byId, items)
    {
      var x := incoming[i];
      assert incoming[..i + 1][..i] == incoming[..i];
      assert Find(items, x.id) == if x.id in byId then Some(byId[x.id]) else None;
      if x.id !in byId {
        IndexesSnoc(byId, items, x);
        items := items + [x];
        byId := byId[x.id := x];
        added := added + 1;
      } else if byId[x.id].canonical != x.canonical {
        conflicts := conflicts + [Conflict(ns, byId[x.id], x)];
      }
    }
    assert incoming[..|incoming|] == incoming;
  }

  method MergeAnnotations(target: Option<Envelope>, incoming: Option<Envelope>, names: seq<string>) returns (o: Outcome)
    requires Named(incoming, names)
    ensures o == Merge(target, incoming, names)
  {
    if incoming.None? { return Outcome(None, 0, []); }
    var i := incoming.value;
    if target.None? {
      return Outcome(incoming, CountItems(i.namespaces, names), []);
    }
    var t := target.value;
    var result, added, conflicts := t.namespaces, 0, [];
    for k := 0 to |names|
      invariant result == MergeNamespaces(t.namespaces, i.namespaces, names[..k])
      invariant added == Grown(t.namespaces, i.namespaces, names[..k])
      invariant conflicts == AllConflicts(t.namespaces, i.namespaces, names[..k])
    {
      assert names[..k + 1][..k] == names[..k];
      MergedNamespace(t.namespaces, i.namespaces, names[..k], names[k]);
      var items, more, found := AppendNew(Get(result, names[k]), names[k], Get(i.namespaces, names[k]));
      result := result[names[k] := items];
      added := added + more;
      conflicts := conflicts + found;
    }
    assert names[..|names|] == names;
    var producers := t.producers + i.producers;
    if added == 0 && producers == t.producers { return Outcome(None, 0, conflicts); }
    return Outcome(Some(Envelope(t.schema, result, producers)), added, conflicts);
  }

  ghost predicate ExceedsLimits(e: Envelope, bytes: Envelope -> nat) {
    bytes(e) > MAX_ENVELOPE_BYTES || TotalItems(e.namespaces) > MAX_ITEMS
  }

  /** `bytes` is the length of the serialized envelope. */
  method EnvelopeExceedsLimits(e: Envelope, bytes: Envelope -> nat) returns (exceeds: bool)
    ensures exceeds <==> ExceedsLimits(e, bytes)
  {
    if bytes(e) > MAX_ENVELOPE_BYTES { return true; }
    var left, total := e.namespaces, 0;
    while left != map[]
      invariant total + TotalItems(left) == TotalItems(e.namespaces)
      decreases |left|
    {
      var k :| k in left;
      TotalWithout(left, k);
      total := total + |left[k]|;
      left := left - {k};
    }
    exceeds := total > MAX_ITEMS;
  }

  // ---------- merging into stored rows ----------

  /** A stored row: whether its metadata is an object, and the envelope in it. */
  datatype Row = Row(id: Id, isObject: bool, annotations: Option<Envelope>)

  /** An incoming record: its row, whether its metadata has the key, the envelope, and the names of
      the envelope's namespaces in order. */
  datatype Duplicate = Duplicate(pair: Pair, hasKey: bool, annotations: Option<Envelope>, names: seq<string>)

  type Rows = map<Pair, Row>

  predicate Meets(rows: Rows, r: Duplicate) {
    r.hasKey && r.pair in rows && rows[r.pair].isObject
  }

  function OutcomeOf(rows: Rows, r: Duplicate): Outcome
    requires r.pair in rows
  {
    Merge(rows[r.pair].annotations, r.annotations, r.names)
  }

  ghost predicate Accepted(rows: Rows, r: Duplicate, bytes: Envelope -> nat) {
    Meets(rows, r) && OutcomeOf(rows, r).merged.Some? && !ExceedsLimits(OutcomeOf(rows, r).merged.value, bytes)
  }

  ghost function StoreOne(rows: Rows, r: Duplicate, bytes: Envelope -> nat): Rows {
    if Accepted(rows, r, bytes) then rows[r.pair := rows[r.pair].(annotations := OutcomeOf(rows, r).merged)] else rows
  }

  ghost function StoreAll(rows: Rows, rs: seq<Duplicate>, bytes: Envelope -> nat): Rows {
    if rs == [] then rows
    else StoreOne(StoreAll(rows, rs[..|rs| - 1], bytes), rs[|rs| - 1], bytes)
  }

  /** The two counters. */
  ghost function MergedCount(rows: Rows, rs: seq<Duplicate>, bytes: Envelope -> nat): int {
    if rs == [] then 0
    else
      var m := |rs| - 1;
      var before := StoreAll(rows, rs[..m], bytes);
      MergedCount(rows, rs[..m], bytes) + if Accepted(before, rs[m], bytes) then OutcomeOf(before, rs[m]).mergedItems else 0
  }

  ghost function ConflictCount(rows: Rows, rs: seq<Duplicate>, bytes: Envelope -> nat): int {
    if rs == [] then 0
    else
      var m := |rs| - 1;
      var before := StoreAll(rows, rs[..m], bytes);
      ConflictCount(rows, rs[..m], bytes) + if Meets(before, rs[m]) then |OutcomeOf(before, rs[m]).conflicts| else 0
  }

  ghost predicate AllNamed(rs: seq<Duplicate>) {
    forall i :: 0 <= i < |rs| ==> Named(rs[i].annotations, rs[i].names)
  }

  ghost predicate WithinLimits(rows: Rows, bytes: Envelope -> nat) {
    forall p :: p in rows && rows[p].annotations.Some? ==> !ExceedsLimits(rows[p].annotations.value, bytes)
  }

  /** No row that was within the limits is ever stored over them. */
  lemma {:induction false} LimitsAreKept(rows: Rows, rs: seq<Duplicate>, bytes: Envelope -> nat)
    requires WithinLimits(rows, bytes)
    ensures WithinLimits(StoreAll(rows, rs, bytes), bytes)
  {
    if rs != [] {
      LimitsAreKept(rows, rs[..|rs| - 1], bytes);
    }
  }

  /** No row appears or goes, and every row keeps its items in front: nothing stored is replaced. */
  lemma {:induction false} StoredItemsAreKept(rows: Rows, rs: seq<Duplicate>, bytes: Envelope -> nat, p: Pair, ns: string)
    requires p in rows && AllNamed(rs) && forall i :: 0 <= i < |rs| ==> Unique(rs[i].annotations)
    ensures var after := StoreAll(rows, rs, bytes);
            after.Keys == rows.Keys && after[p].id == rows[p].id &&
            Items(rows[p].annotations, ns) <= Items(after[p].annotations, ns)
  {
    if rs != [] {
      var m := |rs| - 1;
      var before, r := StoreAll(rows, rs[..m], bytes), rs[m];
      StoredItemsAreKept(rows, rs[..m], bytes, p, ns);
      if Accepted(before, r, bytes) && p == r.pair {
        MergeIsUnion(before[p].annotations, r.annotations, r.names, ns);
        MergeExtends(Items(before[p].annotations, ns), Items(r.annotations, ns));
      }
    }
  }

  class AnnotatedRows {
    var rows: Rows

    constructor (rows0: Rows)
      ensures rows == rows0
    {
      rows := rows0;
    }

    /** merge_duplicate_annotations: the rows are fetched once, and the fetched copies follow the
        writes. */
    method MergeDuplicates(rs: seq<Duplicate>, bytes: Envelope -> nat) returns (mergedItems: int, conflicts: int)
      requires AllNamed(rs)
      modifies this
      ensures rows == StoreAll(old(rows), rs, bytes)
      ensures mergedItems == MergedCount(old(rows), rs, bytes) && conflicts == ConflictCount(old(rows), rs, bytes)
    {
      mergedItems, conflicts := 0, 0;
      var pairs := set r <- rs | r.hasKey :: r.pair;
      var fetched := map p | p in pairs && p in rows :: rows[p];
      for i := 0 to |rs|
        invariant rows == StoreAll(old(rows), rs[..i], bytes)
        invariant mergedItems == MergedCount(old(rows), rs[..i], bytes)
        invariant conflicts == ConflictCount(old(rows), rs[..i], bytes)
        invariant forall p :: p in fetched <==> p in pairs && p in rows
        invariant forall p :: p in fetched ==> fetched[p] == rows[p]
      {
        var r := rs[i];
        assert rs[..i + 1][..i] == rs[..i];
        assert r.hasKey ==> r.pair in pairs;
        if r.hasKey && r.pair in fetched && fetched[r.pair].isObject {
          var row := fetched[r.pair];
          var outcome := MergeAnnotations(row.annotations, r.annotations, r.names);
          conflicts := conflicts + |outcome.conflicts|;
          if outcome.merged.Some? {
            var refused := EnvelopeExceedsLimits(outcome.merged.value, bytes);
            if !refused {
              var updated := row.(annotations := outcome.merged);
              rows := rows[r.pair := updated];
              fetched := fetched[r.pair := updated];
              mergedItems := mergedItems + outcome.mergedItems;
            }
          }
        }
      }
      assert rs[..|rs|] == rs;
    }
  }
}
