/** Group snapshots of a monitored site and the change rows derived from successive snapshots. */
module ChangeLog {

  import opened Options

  datatype Name = Name(text: string)

  /** A JSON value; null and a missing key read the same. */
  datatype Value = Number(n: real) | Text(s: string) | Flag(b: bool)

  datatype Field = Ratio | Desc | Status | IsExclusive | SubscriptionType | RpmLimit | Platform

  /** The fields in the order in which they are compared. */
  const FIELDS: seq<Field> := [Ratio, Desc, Status, IsExclusive, SubscriptionType, RpmLimit, Platform]

  /** A group's tracked fields, and its model names where the snapshot has a list of them. */
  datatype Item = Item(values: map<Field, Value>, models: Option<set<Name>>)
  {
    function Get(f: Field): Option<Value> {
      if f in values then Some(values[f]) else None
    }
  }

  type Groups = map<Name, Item>

  datatype Change =
    | GroupAdded(name: Name, item: Item)
    | GroupRemoved(name: Name, item: Item)
    | RatioChanged(name: Name, before: Item, after: Item)
    | FieldChanged(name: Name, field: Field, was: Option<Value>, now: Option<Value>)
    | ModelAdded(name: Name, model: Name)
    | ModelRemoved(name: Name, model: Name)

  /** All group names and all model names that occur, each in the sorted order of the program. */
  datatype Alphabet = Alphabet(names: seq<Name>, models: seq<Name>)

  ghost predicate Distinct(s: seq<Name>) {
    forall i, j :: 0 <= i < j < |s| ==> s[i] != s[j]
  }

  // ---------------------------------------------------------------------------------------
  // diff_groups
  // ---------------------------------------------------------------------------------------

  function FieldChange(name: Name, was: Item, now: Item, f: Field): seq<Change> {
    if was.Get(f) == now.Get(f) then []
    else if f.Ratio? then [RatioChanged(name, was, now)]
    else [FieldChanged(name, f, was.Get(f), now.Get(f))]
  }

  function FieldChanges(name: Name, was: Item, now: Item, fields: seq<Field>): seq<Change> {
    if fields == [] then []
    else FieldChanges(name, was, now, fields[..|fields| - 1]) + FieldChange(name, was, now, fields[|fields| - 1])
  }

  function ModelsAdded(name: Name, was: set<Name>, now: set<Name>, models: seq<Name>): seq<Change> {
    if models == [] then []
    else
      var m := models[|models| - 1];
      ModelsAdded(name, was, now, models[..|models| - 1])
        + (if m in now && m !in was then [ModelAdded(name, m)] else [])
  }

  function ModelsRemoved(name: Name, was: set<Name>, now: set<Name>, models: seq<Name>): seq<Change> {
    if models == [] then []
    else
      var m := models[|models| - 1];
      ModelsRemoved(name, was, now, models[..|models| - 1])
        + (if m in was && m !in now then [ModelRemoved(name, m)] else [])
  }

  /** Models are compared only if both snapshots list them. */
  function ModelChanges(name: Name, was: Item, now: Item, models: seq<Name>): seq<Change> {
    if was.models.Some? && now.models.Some? then
      ModelsAdded(name, was.models.value, now.models.value, models)
        + ModelsRemoved(name, was.models.value, now.models.value, models)
    else []
  }

  function ItemChanges(name: Name, was: Item, now: Item, models: seq<Name>): seq<Change> {
    FieldChanges(name, was, now, FIELDS) + ModelChanges(name, was, now, models)
  }

  function AddedIn(was: Groups, now: Groups, names: seq<Name>): seq<Change> {
    if names == [] then []
    else
      var n := names[|names| - 1];
      AddedIn(was, now, names[..|names| - 1])
        + (if n in now && n !in was then [GroupAdded(n, now[n])] else [])
  }

  function RemovedIn(was: Groups, now: Groups, names: seq<Name>): seq<Change> {
    if names == [] then []
    else
      var n := names[|names| - 1];
      RemovedIn(was, now, names[..|names| - 1])
        + (if n in was && n !in now then [GroupRemoved(n, was[n])] else [])
  }

  function KeptIn(was: Groups, now: Groups, names: seq<Name>, models: seq<Name>): seq<Change> {
    if names == [] then []
    else
      var n := names[|names| - 1];
      KeptIn(was, now, names[..|names| - 1], models)
        + (if n in was && n in now then ItemChanges(n, was[n], now[n], models) else [])
  }

  function Diff(was: Groups, now: Groups, ab: Alphabet): seq<Change> {
    AddedIn(was, now, ab.names) + RemovedIn(was, now, ab.names) + KeptIn(was, now, ab.names, ab.models)
  }

  /** The comparison of one group that both snapshots have. */
  method DiffItem(name: Name, was: Item, now: Item, models: seq<Name>) returns (changes: seq<Change>)
    ensures changes == ItemChanges(name, was, now, models)
  {
    changes := [];
    for i := 0 to |FIELDS|
      invariant changes == FieldChanges(name, was, now, FIELDS[..i])
    {
      assert FIELDS[..i + 1][..i] == FIELDS[..i];
      var f := FIELDS[i];
      if was.Get(f) != now.Get(f) {
        changes := changes + [if f.Ratio? then RatioChanged(name, was, now)
                              else FieldChanged(name, f, was.Get(f), now.Get(f))];
      }
    }
    assert FIELDS[..|FIELDS|] == FIELDS;
    if was.models.Some? && now.models.Some? {
      var more := DiffModels(name, was.models.value, now.models.value, models);
      changes := changes + more;
    }
  }

  method DiffModels(name: Name, was: set<Name>, now: set<Name>, models: seq<Name>) returns (changes: seq<Change>)
    ensures changes == ModelsAdded(name, was, now, models) + ModelsRemoved(name, was, now, models)
  {
    changes := [];
    for i := 0 to |models|
      invariant changes == ModelsAdded(name, was, now, models[..i])
    {
      assert models[..i + 1][..i] == models[..i];
      if models[i] in now && models[i] !in was {
        changes := changes + [ModelAdded(name, models[i])];
      }
    }
    assert models[..|models|] == models;
    ghost var added := changes;
    for i := 0 to |models|
      invariant changes == added + ModelsRemoved(name, was, now, models[..i])
    {
      assert models[..i + 1][..i] == models[..i];
      if models[i] in was && models[i] !in now {
        changes := changes + [ModelRemoved(name, models[i])];
      }
    }
  }

  method DiffAdded(was: Groups, now: Groups, names: seq<Name>) returns (changes: seq<Change>)
    ensures changes == AddedIn(was, now, names)
  {
    changes := [];
    for i := 0 to |names|
      invariant changes == AddedIn(was, now, names[..i])
    {
      assert names[..i + 1][..i] == names[..i];
      if names[i] in now && names[i] !in was {
        changes := changes + [GroupAdded(names[i], now[names[i]])];
      }
    }
    assert names[..|names|] == names;
  }

  method DiffRemoved(was: Groups, now: Groups, names: seq<Name>) returns (changes: seq<Change>)
    ensures changes == RemovedIn(was, now, names)
  {
    changes := [];
    for i := 0 to |names|
      invariant changes == RemovedIn(was, now, names[..i])
    {
      assert names[..i + 1][..i] == names[..i];
      if names[i] in was && names[i] !in now {
        changes := changes + [GroupRemoved(names[i], was[names[i]])];
      }
    }
    assert names[..|names|] == names;
  }

  method DiffKept(was: Groups, now: Groups, ab: Alphabet) returns (changes: seq<Change>)
    ensures changes == KeptIn(was, now, ab.names, ab.models)
  {
    var names := ab.names;
    changes := [];
    for i := 0 to |names|
      invariant changes == KeptIn(was, now, names[..i], ab.models)
    {
      assert names[..i + 1][..i] == names[..i];
      if names[i] in was && names[i] in now {
        var more := DiffItem(names[i], was[names[i]], now[names[i]], ab.models);
        changes := changes + more;
      }
    }
    assert names[..|names|] == names;
  }

  /** `diff_groups` */
  method DiffGroups(was: Groups, now: Groups, ab: Alphabet) returns (changes: seq<Change>)
    ensures changes == Diff(was, now, ab)
  {
    changes := DiffAdded(was, now, ab.names);
    var removed := DiffRemoved(was, now, ab.names);
    var kept := DiffKept(was, now, ab);
    changes := changes + removed + kept;
  }

  // ---------------------------------------------------------------------------------------
  // Replaying changes
  // ---------------------------------------------------------------------------------------

  function WithValue(item: Item, f: Field, v: Option<Value>): Item {
    item.(values := if v.Some? then item.values[f := v.value] else item.values - {f})
  }

  /** What a change row says about its group. */
  function Applied(o: Option<Item>, c: Change): Option<Item> {
    match c
    case GroupAdded(_, item) => Some(item)
    case GroupRemoved(_, _) => None
    case RatioChanged(_, _, now) => if o.Some? then Some(WithValue(o.value, Ratio, now.Get(Ratio))) else o
    case FieldChanged(_, f, _, v) => if o.Some? then Some(WithValue(o.value, f, v)) else o
    case ModelAdded(_, m) =>
      if o.Some? && o.value.models.Some? then Some(o.value.(models := Some(o.value.models.value + {m}))) else o
    case ModelRemoved(_, m) =>
      if o.Some? && o.value.models.Some? then Some(o.value.(models := Some(o.value.models.value - {m}))) else o
  }

  function Lookup(g: Groups, n: Name): Option<Item> {
    if n in g then Some(g[n]) else None
  }

  function AppliedTo(g: Groups, c: Change): Groups {
    var o := Applied(Lookup(g, c.name), c);
    if o.Some? then g[c.name := o.value] else g - {c.name}
  }

  function Replay(g: Groups, cs: seq<Change>): Groups {
    if cs == [] then g else AppliedTo(Replay(g, cs[..|cs| - 1]), cs[|cs| - 1])
  }

  /** One group's share of a replay. */
  function ReplayItem(o: Option<Item>, n: Name, cs: seq<Change>): Option<Item> {
    if cs == [] then o
    else
      var before := ReplayItem(o, n, cs[..|cs| - 1]);
      if cs[|cs| - 1].name == n then Applied(before, cs[|cs| - 1]) else before
  }

  lemma {:induction false} ReplayByGroup(g: Groups, n: Name, cs: seq<Change>)
    ensures Lookup(Replay(g, cs), n) == ReplayItem(Lookup(g, n), n, cs)
  {
    if cs != [] {
      ReplayByGroup(g, n, cs[..|cs| - 1]);
    }
  }

  lemma {:induction false} ReplayItemConcat(o: Option<Item>, n: Name, a: seq<Change>, b: seq<Change>)
    ensures ReplayItem(o, n, a + b) == ReplayItem(ReplayItem(o, n, a), n, b)
  {
    if b == [] {
      assert a + b == a;
    } else {
      ReplayItemConcat(o, n, a, b[..|b| - 1]);
      assert (a + b)[..|a + b| - 1] == a + b[..|b| - 1];
    }
  }

  lemma {:induction false} ReplayConcat(g: Groups, a: seq<Change>, b: seq<Change>)
    ensures Replay(g, a + b) == Replay(Replay(g, a), b)
  {
    if b == [] {
      assert a + b == a;
    } else {
      ReplayConcat(g, a, b[..|b| - 1]);
      assert (a + b)[..|a + b| - 1] == a + b[..|b| - 1];
    }
  }

  predicate NotAbout(n: Name, cs: seq<Change>) {
    forall i :: 0 <= i < |cs| ==> cs[i].name != n
  }

  lemma {:induction false} OthersLeaveAlone(o: Option<Item>, n: Name, cs: seq<Change>)
    requires NotAbout(n, cs)
    ensures ReplayItem(o, n, cs) == o
  {
    if cs != [] {
      OthersLeaveAlone(o, n, cs[..|cs| - 1]);
    }
  }

  // ---------------------------------------------------------------------------------------
  // Replaying a difference gives the newer snapshot
  // ---------------------------------------------------------------------------------------

  lemma {:induction false} FieldsReplay(n: Name, was: Item, now: Item, fields: seq<Field>, x: Item)
    requires x.values == was.values
    ensures var r := ReplayItem(Some(x), n, FieldChanges(n, was, now, fields));
            && r.Some?
            && r.value.models == x.models
            && (forall f :: r.value.Get(f) == if f in fields then now.Get(f) else was.Get(f))
  {
    if fields != [] {
      var k := |fields| - 1;
      assert fields == fields[..k] + [fields[k]];
      FieldsReplay(n, was, now, fields[..k], x);
      var before, last := FieldChanges(n, was, now, fields[..k]), FieldChange(n, was, now, fields[k]);
      ReplayItemConcat(Some(x), n, before, last);
      var mid := ReplayItem(Some(x), n, before);
      OneFieldReplay(n, was, now, fields[k], mid.value);
    }
  }

  lemma OneFieldReplay(n: Name, was: Item, now: Item, field: Field, x: Item)
    ensures var r := ReplayItem(Some(x), n, FieldChange(n, was, now, field));
            && r.Some?
            && r.value.models == x.models
            && (forall f :: f != field ==> r.value.Get(f) == x.Get(f))
            && (if was.Get(field) == now.Get(field) then r == Some(x) else r.value.Get(field) == now.Get(field))
  {
    var cs := FieldChange(n, was, now, field);
    if cs != [] {
      assert cs[..0] == [] && ReplayItem(Some(x), n, cs[..0]) == Some(x);
      assert ReplayItem(Some(x), n, cs) == Some(WithValue(x, field, now.Get(field)));
    }
  }

  lemma {:induction false} AddedModelsReplay(n: Name, was: set<Name>, now: set<Name>, models: seq<Name>, x: Item)
    requires x.models == Some(was)
    ensures var r := ReplayItem(Some(x), n, ModelsAdded(n, was, now, models));
            && r.Some? && r.value.values == x.values && r.value.models.Some?
            && (forall m :: m in r.value.models.value <==> m in was || (m in now && m in models))
  {
    if models != [] {
      var k := |models| - 1;
      assert models == models[..k] + [models[k]];
      AddedModelsReplay(n, was, now, models[..k], x);
      var before := ModelsAdded(n, was, now, models[..k]);
      if models[k] in now && models[k] !in was {
        assert (before + [ModelAdded(n, models[k])])[..|before|] == before;
      } else {
        assert before + [] == before;
      }
    }
  }

  lemma {:induction false} RemovedModelsReplay(n: Name, was: set<Name>, now: set<Name>, models: seq<Name>, x: Item)
    requires x.models.Some?
    ensures var r := ReplayItem(Some(x), n, ModelsRemoved(n, was, now, models));
            && r.Some? && r.value.values == x.values && r.value.models.Some?
            && (forall m :: m in r.value.models.value <==>
                  m in x.models.value && !(m in was && m !in now && m in models))
  {
    if models != [] {
      var k := |models| - 1;
      assert models == models[..k] + [models[k]];
      RemovedModelsReplay(n, was, now, models[..k], x);
      var before := ModelsRemoved(n, was, now, models[..k]);
      if models[k] in was && models[k] !in now {
        assert (before + [ModelRemoved(n, models[k])])[..|before|] == before;
      } else {
        assert before + [] == before;
      }
    }
  }

  /** Every model either snapshot lists is in the alphabet. */
  ghost predicate ModelsKnown(item: Item, models: seq<Name>) {
    item.models.Some? ==> forall m :: m in item.models.value ==> m in models
  }

  /** Replaying the model changes of a group gives the newer list, exactly if both snapshots agree on
      whether they list models. */
  lemma ModelsReplay(n: Name, was: Item, now: Item, models: seq<Name>, x: Item)
    requires x.models == was.models && ModelsKnown(was, models) && ModelsKnown(now, models)
    ensures var r := ReplayItem(Some(x), n, ModelChanges(n, was, now, models));
            && r.Some? && r.value.values == x.values
            && (r.value.models == now.models <==> was.models.Some? == now.models.Some?)
            && (was.models.None? || now.models.None? ==> r.value.models == was.models)
  {
    if was.models.Some? && now.models.Some? {
      var added := ModelsAdded(n, was.models.value, now.models.value, models);
      var removed := ModelsRemoved(n, was.models.value, now.models.value, models);
      ReplayItemConcat(Some(x), n, added, removed);
      AddedModelsReplay(n, was.models.value, now.models.value, models, x);
      var mid := ReplayItem(Some(x), n, added).value;
      RemovedModelsReplay(n, was.models.value, now.models.value, models, mid);
      var r := ReplayItem(Some(mid), n, removed).value;
      assert r.models.value == now.models.value;
    }
  }

  lemma ItemReplay(n: Name, was: Item, now: Item, models: seq<Name>, x: Item)
    requires x.values == was.values
    ensures var r := ReplayItem(Some(x), n, ItemChanges(n, was, now, models));
            r.Some? && r.value.values == now.values
    ensures x.models == was.models && ModelsKnown(was, models) && ModelsKnown(now, models) ==>
      var r := ReplayItem(Some(x), n, ItemChanges(n, was, now, models)).value;
      (r.models == now.models <==> was.models.Some? == now.models.Some?)
  {
    FieldsReplay(n, was, now, FIELDS, x);
    var fields, more := FieldChanges(n, was, now, FIELDS), ModelChanges(n, was, now, models);
    ReplayItemConcat(Some(x), n, fields, more);
    var mid := ReplayItem(Some(x), n, fields).value;
    AllFields();
    SameGets(mid, now);
    ModelChangesKeepValues(n, was, now, models, mid);
    if x.models == was.models && ModelsKnown(was, models) && ModelsKnown(now, models) {
      ModelsReplay(n, was, now, models, mid);
    }
  }

  lemma AllFields()
    ensures forall f: Field :: f in FIELDS
  {
    forall f: Field ensures f in FIELDS {
      match f
      case Ratio => assert FIELDS[0] == f;
      case Desc => assert FIELDS[1] == f;
      case Status => assert FIELDS[2] == f;
      case IsExclusive => assert FIELDS[3] == f;
      case SubscriptionType => assert FIELDS[4] == f;
      case RpmLimit => assert FIELDS[5] == f;
      case Platform => assert FIELDS[6] == f;
    }
  }

  lemma SameGets(a: Item, b: Item)
    requires forall f :: a.Get(f) == b.Get(f)
    ensures a.values == b.values
  {
    forall f ensures (f in a.values <==> f in b.values) && (f in a.values ==> a.values[f] == b.values[f]) {
      assert a.Get(f) == b.Get(f);
    }
  }

  predicate ModelsOnly(cs: seq<Change>) {
    forall i :: 0 <= i < |cs| ==> cs[i].ModelAdded? || cs[i].ModelRemoved?
  }

  lemma {:induction false} ModelsOnlyKeepValues(n: Name, cs: seq<Change>, x: Item)
    requires ModelsOnly(cs)
    ensures var r := ReplayItem(Some(x), n, cs); r.Some? && r.value.values == x.values
  {
    if cs != [] { ModelsOnlyKeepValues(n, cs[..|cs| - 1], x); }
  }

  lemma {:induction false} AreModelsOnly(n: Name, was: set<Name>, now: set<Name>, models: seq<Name>)
    ensures ModelsOnly(ModelsAdded(n, was, now, models)) && ModelsOnly(ModelsRemoved(n, was, now, models))
  {
    if models != [] { AreModelsOnly(n, was, now, models[..|models| - 1]); }
  }

  lemma ModelChangesKeepValues(n: Name, was: Item, now: Item, models: seq<Name>, x: Item)
    ensures var r := ReplayItem(Some(x), n, ModelChanges(n, was, now, models)); r.Some? && r.value.values == x.values
  {
    if was.models.Some? && now.models.Some? {
      AreModelsOnly(n, was.models.value, now.models.value, models);
    }
    ModelsOnlyKeepValues(n, ModelChanges(n, was, now, models), x);
  }

  predicate AllAbout(n: Name, cs: seq<Change>) {
    forall i :: 0 <= i < |cs| ==> cs[i].name == n
  }

  lemma {:induction false} FieldsAbout(n: Name, was: Item, now: Item, fields: seq<Field>)
    ensures AllAbout(n, FieldChanges(n, was, now, fields))
  {
    if fields != [] { FieldsAbout(n, was, now, fields[..|fields| - 1]); }
  }

  lemma {:induction false} ModelsAbout(n: Name, was: set<Name>, now: set<Name>, models: seq<Name>)
    ensures AllAbout(n, ModelsAdded(n, was, now, models)) && AllAbout(n, ModelsRemoved(n, was, now, models))
  {
    if models != [] { ModelsAbout(n, was, now, models[..|models| - 1]); }
  }

  lemma ItemAbout(n: Name, was: Item, now: Item, models: seq<Name>)
    ensures AllAbout(n, ItemChanges(n, was, now, models))
  {
    FieldsAbout(n, was, now, FIELDS);
    if was.models.Some? && now.models.Some? {
      ModelsAbout(n, was.models.value, now.models.value, models);
    }
  }

  lemma {:induction false} AddedReplay(was: Groups, now: Groups, names: seq<Name>, n: Name, o: Option<Item>)
    ensures ReplayItem(o, n, AddedIn(was, now, names))
      == if n in names && n in now && n !in was then Some(now[n]) else o
  {
    if names != [] {
      var k := |names| - 1;
      assert names == names[..k] + [names[k]];
      AddedReplay(was, now, names[..k], n, o);
      var before, m := AddedIn(was, now, names[..k]), names[k];
      if m in now && m !in was {
        assert (before + [GroupAdded(m, now[m])])[..|before|] == before;
      } else {
        assert before + [] == before;
      }
    }
  }

  lemma {:induction false} RemovedReplay(was: Groups, now: Groups, names: seq<Name>, n: Name, o: Option<Item>)
    ensures ReplayItem(o, n, RemovedIn(was, now, names))
      == if n in names && n in was && n !in now then None else o
  {
    if names != [] {
      var k := |names| - 1;
      assert names == names[..k] + [names[k]];
      RemovedReplay(was, now, names[..k], n, o);
      var before, m := RemovedIn(was, now, names[..k]), names[k];
      if m in was && m !in now {
        assert (before + [GroupRemoved(m, was[m])])[..|before|] == before;
      } else {
        assert before + [] == before;
      }
    }
  }

  lemma {:induction false} KeptReplay(was: Groups, now: Groups, names: seq<Name>, models: seq<Name>, n: Name, o: Option<Item>)
    requires Distinct(names)
    ensures ReplayItem(o, n, KeptIn(was, now, names, models))
      == if n in names && n in was && n in now then ReplayItem(o, n, ItemChanges(n, was[n], now[n], models)) else o
  {
    hide ItemChanges;
    if names != [] {
      var k := |names| - 1;
      assert names == names[..k] + [names[k]];
      KeptReplay(was, now, names[..k], models, n, o);
      var before, m := KeptIn(was, now, names[..k], models), names[k];
      if m in was && m in now {
        var last := ItemChanges(m, was[m], now[m], models);
        ReplayItemConcat(o, n, before, last);
        if m == n {
          assert n !in names[..k];
        } else {
          ItemAbout(m, was[m], now[m], models);
          OthersLeaveAlone(ReplayItem(o, n, before), n, last);
        }
      } else {
        assert before + [] == before;
      }
    }
  }

  /** The alphabet covers a snapshot. */
  ghost predicate Covers(ab: Alphabet, g: Groups) {
    forall n :: n in g ==> n in ab.names && ModelsKnown(g[n], ab.models)
  }

  ghost predicate AlphabetOk(ab: Alphabet, was: Groups, now: Groups) {
    Distinct(ab.names) && Covers(ab, was) && Covers(ab, now)
  }

  /** What replaying a difference does to one group. */
  lemma DiffReplayItem(was: Groups, now: Groups, ab: Alphabet, n: Name, o: Option<Item>)
    requires AlphabetOk(ab, was, now)
    ensures ReplayItem(o, n, Diff(was, now, ab)) ==
      if n in was && n in now then ReplayItem(o, n, ItemChanges(n, was[n], now[n], ab.models))
      else if n in now then Some(now[n])
      else if n in was then None
      else o
  {
    hide ItemChanges, AddedIn, RemovedIn, KeptIn;
    var added := AddedIn(was, now, ab.names);
    var removed := RemovedIn(was, now, ab.names);
    var kept := KeptIn(was, now, ab.names, ab.models);
    ReplayItemConcat(o, n, added + removed, kept);
    ReplayItemConcat(o, n, added, removed);
    AddedReplay(was, now, ab.names, n, o);
    RemovedReplay(was, now, ab.names, n, ReplayItem(o, n, added));
    KeptReplay(was, now, ab.names, ab.models, n, ReplayItem(o, n, added + removed));
  }

  /** Two snapshots agree in the group names and the seven tracked fields. */
  ghost predicate SameView(a: Groups, b: Groups) {
    a.Keys == b.Keys && forall n :: n in a ==> a[n].values == b[n].values
  }

  /** Replaying the difference of two snapshots on anything that looks like the older one gives
      something that looks like the newer one. */
  lemma DiffReplays(was: Groups, now: Groups, ab: Alphabet, g: Groups)
    requires AlphabetOk(ab, was, now) && SameView(g, was)
    ensures SameView(Replay(g, Diff(was, now, ab)), now)
  {
    hide Diff, ItemChanges, AlphabetOk;
    var r := Replay(g, Diff(was, now, ab));
    forall n ensures (n in r <==> n in now) && (n in r ==> r[n].values == now[n].values) {
      ReplayByGroup(g, n, Diff(was, now, ab));
      DiffReplayItem(was, now, ab, n, Lookup(g, n));
      assert Lookup(r, n) == ReplayItem(Lookup(g, n), n, Diff(was, now, ab));
      if n in was && n in now {
        ItemReplay(n, was[n], now[n], ab.models, g[n]);
      }
    }
  }

  /** A group's models come out right exactly if it is new or both snapshots agree on whether they
      list its models. */
  lemma DiffReplaysModelsIff(was: Groups, now: Groups, ab: Alphabet, n: Name)
    requires AlphabetOk(ab, was, now) && n in now
    ensures var r := Replay(was, Diff(was, now, ab));
            n in r && (r[n].models == now[n].models <==>
              (n in was ==> was[n].models.Some? == now[n].models.Some?))
  {
    hide Diff, ItemChanges;
    ReplayByGroup(was, n, Diff(was, now, ab));
    DiffReplayItem(was, now, ab, n, Lookup(was, n));
    assert Lookup(Replay(was, Diff(was, now, ab)), n) == ReplayItem(Lookup(was, n), n, Diff(was, now, ab));
    if n in was {
      ItemReplay(n, was[n], now[n], ab.models, was[n]);
    }
  }

  /** Nothing the comparison looks at differs. */
  ghost predicate Unchanged(was: Groups, now: Groups) {
    SameView(was, now) && forall n :: n in was && was[n].models.Some? && now[n].models.Some? ==>
      was[n].models == now[n].models
  }

  lemma {:induction false} NoFieldChanges(n: Name, was: Item, now: Item, fields: seq<Field>)
    requires was.values == now.values
    ensures FieldChanges(n, was, now, fields) == []
  {
    if fields != [] { NoFieldChanges(n, was, now, fields[..|fields| - 1]); }
  }

  lemma {:induction false} NoModelChanges(n: Name, s: set<Name>, models: seq<Name>)
    ensures ModelsAdded(n, s, s, models) == [] && ModelsRemoved(n, s, s, models) == []
  {
    if models != [] { NoModelChanges(n, s, models[..|models| - 1]); }
  }

  lemma {:induction false} NoChanges(was: Groups, now: Groups, names: seq<Name>, models: seq<Name>)
    requires Unchanged(was, now)
    ensures AddedIn(was, now, names) == [] && RemovedIn(was, now, names) == []
    ensures KeptIn(was, now, names, models) == []
  {
    if names != [] {
      NoChanges(was, now, names[..|names| - 1], models);
      var n := names[|names| - 1];
      if n in was {
        NoFieldChanges(n, was[n], now[n], FIELDS);
        if was[n].models.Some? { NoModelChanges(n, was[n].models.value, models); }
      }
    }
  }

  /** The difference is empty exactly if nothing tracked differs. */
  lemma DiffEmptyIff(was: Groups, now: Groups, ab: Alphabet)
    requires AlphabetOk(ab, was, now)
    ensures Diff(was, now, ab) == [] <==> Unchanged(was, now)
  {
    if Unchanged(was, now) {
      NoChanges(was, now, ab.names, ab.models);
    }
    if Diff(was, now, ab) == [] {
      DiffReplays(was, now, ab, was);
      forall n | n in was && was[n].models.Some? && now[n].models.Some? ensures was[n].models == now[n].models {
        DiffReplaysModelsIff(was, now, ab, n);
      }
    }
  }
}
