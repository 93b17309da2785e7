/** What the rows of a difference are: one for each thing that differs, with its old and its new value, in
    a fixed order. */
module DiffMeaning {

  import opened Options
  import opened ChangeLog

  /** The change says something that is so of the two snapshots. */
  predicate Reports(was: Groups, now: Groups, c: Change) {
    match c
    case GroupAdded(n, item) => n !in was && n in now && item == now[n]
    case GroupRemoved(n, item) => n in was && n !in now && item == was[n]
    case RatioChanged(n, before, after) =>
      n in was && n in now && before == was[n] && after == now[n] && before.Get(Ratio) != after.Get(Ratio)
    case FieldChanged(n, f, before, after) =>
      n in was && n in now && f != Ratio && before == was[n].Get(f) && after == now[n].Get(f) && before != after
    case ModelAdded(n, m) =>
      n in was && n in now && was[n].models.Some? && now[n].models.Some?
      && m !in was[n].models.value && m in now[n].models.value
    case ModelRemoved(n, m) =>
      n in was && n in now && was[n].models.Some? && now[n].models.Some?
      && m in was[n].models.value && m !in now[n].models.value
  }

  // ---------------------------------------------------------------------------------------
  // Membership
  // ---------------------------------------------------------------------------------------

  /** The change is about this field of the group. */
  predicate AboutField(n: Name, was: Item, now: Item, f: Field, c: Change) {
    was.Get(f) != now.Get(f)
    && c == if f == Ratio then RatioChanged(n, was, now) else FieldChanged(n, f, was.Get(f), now.Get(f))
  }

  lemma {:induction false} FieldChangesIff(n: Name, was: Item, now: Item, fields: seq<Field>, c: Change)
    ensures c in FieldChanges(n, was, now, fields) <==> exists f :: f in fields && AboutField(n, was, now, f, c)
  {
    if fields != [] {
      var k := |fields| - 1;
      FieldChangesIff(n, was, now, fields[..k], c);
      OneFieldIff(n, was, now, fields[k], c);
      hide FieldChange, AboutField;
      assert fields == fields[..k] + [fields[k]];
    }
  }

  lemma OneFieldIff(n: Name, was: Item, now: Item, f: Field, c: Change)
    ensures c in FieldChange(n, was, now, f) <==> AboutField(n, was, now, f, c)
  {
  }

  lemma {:induction false} ModelsIff(n: Name, was: set<Name>, now: set<Name>, models: seq<Name>, c: Change)
    ensures c in ModelsAdded(n, was, now, models) <==>
      c.ModelAdded? && c.name == n && c.model in models && c.model in now && c.model !in was
    ensures c in ModelsRemoved(n, was, now, models) <==>
      c.ModelRemoved? && c.name == n && c.model in models && c.model in was && c.model !in now
  {
    if models != [] {
      var k := |models| - 1;
      ModelsIff(n, was, now, models[..k], c);
      assert models == models[..k] + [models[k]];
    }
  }

  lemma ItemChangesIff(was: Groups, now: Groups, n: Name, models: seq<Name>, c: Change)
    requires n in was && n in now && ModelsKnown(was[n], models) && ModelsKnown(now[n], models)
    ensures c in ItemChanges(n, was[n], now[n], models) <==>
      c.name == n && !c.GroupAdded? && !c.GroupRemoved? && Reports(was, now, c)
  {
    FieldChangesIff(n, was[n], now[n], FIELDS, c);
    AllFields();
    hide FieldChanges, ModelsAdded, ModelsRemoved;
    if was[n].models.Some? && now[n].models.Some? {
      ModelsIff(n, was[n].models.value, now[n].models.value, models, c);
    }
    if c.FieldChanged? && Reports(was, now, c) && c.name == n { assert AboutField(n, was[n], now[n], c.field, c); }
    if c.RatioChanged? && Reports(was, now, c) && c.name == n { assert AboutField(n, was[n], now[n], Ratio, c); }
  }

  lemma {:induction false} AddedIff(was: Groups, now: Groups, names: seq<Name>, c: Change)
    ensures c in AddedIn(was, now, names) <==> c.GroupAdded? && c.name in names && Reports(was, now, c)
  {
    if names != [] {
      AddedIff(was, now, names[..|names| - 1], c);
      assert names == names[..|names| - 1] + [names[|names| - 1]];
    }
  }

  lemma {:induction false} RemovedIff(was: Groups, now: Groups, names: seq<Name>, c: Change)
    ensures c in RemovedIn(was, now, names) <==> c.GroupRemoved? && c.name in names && Reports(was, now, c)
  {
    if names != [] {
      RemovedIff(was, now, names[..|names| - 1], c);
      assert names == names[..|names| - 1] + [names[|names| - 1]];
    }
  }

  lemma {:induction false} KeptIff(was: Groups, now: Groups, names: seq<Name>, models: seq<Name>, c: Change)
    requires forall n :: n in was ==> ModelsKnown(was[n], models)
    requires forall n :: n in now ==> ModelsKnown(now[n], models)
    ensures c in KeptIn(was, now, names, models) <==>
      c.name in names && !c.GroupAdded? && !c.GroupRemoved? && Reports(was, now, c)
  {
    if names != [] {
      hide ItemChanges;
      var n := names[|names| - 1];
      KeptIff(was, now, names[..|names| - 1], models, c);
      assert names == names[..|names| - 1] + [n];
      if n in was && n in now { ItemChangesIff(was, now, n, models, c); }
    }
  }

  /** The difference of two snapshots has exactly the changes that are so. */
  lemma DiffIff(was: Groups, now: Groups, ab: Alphabet, c: Change)
    requires AlphabetOk(ab, was, now)
    ensures c in Diff(was, now, ab) <==> Reports(was, now, c)
  {
    hide AddedIn, RemovedIn, KeptIn;
    AddedIff(was, now, ab.names, c);
    RemovedIff(was, now, ab.names, c);
    KeptIff(was, now, ab.names, ab.models, c);
  }

  // ---------------------------------------------------------------------------------------
  // Order
  // ---------------------------------------------------------------------------------------

  ghost predicate Earlier(s: seq<Name>, x: Name, y: Name) {
    exists i, j :: 0 <= i < j < |s| && s[i] == x && s[j] == y
  }

  function Kind(c: Change): nat {
    match c
    case GroupAdded(_, _) => 0
    case GroupRemoved(_, _) => 1
    case _ => 2
  }

  function FieldRank(f: Field): nat {
    match f
    case Ratio => 0
    case Desc => 1
    case Status => 2
    case IsExclusive => 3
    case SubscriptionType => 4
    case RpmLimit => 5
    case Platform => 6
  }

  /** Where a change stands among those of its group. */
  function Part(c: Change): nat {
    match c
    case RatioChanged(_, _, _) => FieldRank(Ratio)
    case FieldChanged(_, f, _, _) => FieldRank(f)
    case ModelAdded(_, _) => 7
    case ModelRemoved(_, _) => 8
    case _ => 0
  }

  /** Added groups come first, then removed ones, then the changes of the others, each by name; of one
      group its fields in their order, then added and then removed models, by name. */
  ghost predicate Ahead(ab: Alphabet, a: Change, b: Change) {
    || Kind(a) < Kind(b)
    || (Kind(a) == Kind(b) && Earlier(ab.names, a.name, b.name))
    || (Kind(a) == Kind(b) == 2 && a.name == b.name &&
         (|| Part(a) < Part(b)
          || (a.ModelAdded? && b.ModelAdded? && Earlier(ab.models, a.model, b.model))
          || (a.ModelRemoved? && b.ModelRemoved? && Earlier(ab.models, a.model, b.model))))
  }

  ghost predicate InOrder(ab: Alphabet, cs: seq<Change>) {
    forall i, j :: 0 <= i < j < |cs| ==> Ahead(ab, cs[i], cs[j])
  }

  ghost predicate AllAhead(ab: Alphabet, a: seq<Change>, b: seq<Change>) {
    forall x, y :: x in a && y in b ==> Ahead(ab, x, y)
  }

  lemma ConcatInOrder(ab: Alphabet, a: seq<Change>, b: seq<Change>)
    requires InOrder(ab, a) && InOrder(ab, b) && AllAhead(ab, a, b)
    ensures InOrder(ab, a + b)
  {
    hide Ahead;
    forall i, j | 0 <= i < j < |a + b| ensures Ahead(ab, (a + b)[i], (a + b)[j]) {
      if i < |a| <= j {
        assert a[i] in a && b[j - |a|] in b;
      }
    }
  }

  lemma EarlierAt(s: seq<Name>, k: nat, x: Name)
    requires k < |s| && x in s[..k]
    ensures Earlier(s, x, s[k])
  {
    var i :| 0 <= i < k && s[..k][i] == x;
  }

  lemma {:induction false} AddedInOrder(was: Groups, now: Groups, ab: Alphabet, k: nat)
    requires k <= |ab.names|
    ensures InOrder(ab, AddedIn(was, now, ab.names[..k])) && InOrder(ab, RemovedIn(was, now, ab.names[..k]))
  {
    if k > 0 {
      var prior, n := ab.names[..k - 1], ab.names[k - 1];
      assert ab.names[..k][..k - 1] == prior;
      AddedInOrder(was, now, ab, k - 1);
      var added, removed := AddedIn(was, now, prior), RemovedIn(was, now, prior);
      forall c | c in added ensures Earlier(ab.names, c.name, n) && Kind(c) == 0 {
        AddedIff(was, now, prior, c);
        EarlierAt(ab.names, k - 1, c.name);
      }
      forall c | c in removed ensures Earlier(ab.names, c.name, n) && Kind(c) == 1 {
        RemovedIff(was, now, prior, c);
        EarlierAt(ab.names, k - 1, c.name);
      }
      ConcatInOrder(ab, added, if n in now && n !in was then [GroupAdded(n, now[n])] else []);
      ConcatInOrder(ab, removed, if n in was && n !in now then [GroupRemoved(n, was[n])] else []);
    }
  }

  lemma {:induction false} FieldsInOrder(ab: Alphabet, n: Name, was: Item, now: Item, k: nat)
    requires k <= |FIELDS|
    ensures InOrder(ab, FieldChanges(n, was, now, FIELDS[..k]))
    ensures forall c :: c in FieldChanges(n, was, now, FIELDS[..k]) ==> c.name == n && Kind(c) == 2 && Part(c) < k
  {
    if k > 0 {
      assert FIELDS[..k][..k - 1] == FIELDS[..k - 1];
      FieldsInOrder(ab, n, was, now, k - 1);
      assert FieldRank(FIELDS[k - 1]) == k - 1;
      ConcatInOrder(ab, FieldChanges(n, was, now, FIELDS[..k - 1]), FieldChange(n, was, now, FIELDS[k - 1]));
    }
  }

  lemma {:induction false} ModelsInOrder(ab: Alphabet, n: Name, was: set<Name>, now: set<Name>, k: nat)
    requires k <= |ab.models|
    ensures InOrder(ab, ModelsAdded(n, was, now, ab.models[..k])) && InOrder(ab, ModelsRemoved(n, was, now, ab.models[..k]))
  {
    if k > 0 {
      var prior, m := ab.models[..k - 1], ab.models[k - 1];
      assert ab.models[..k][..k - 1] == prior;
      ModelsInOrder(ab, n, was, now, k - 1);
      var added, removed := ModelsAdded(n, was, now, prior), ModelsRemoved(n, was, now, prior);
      forall c | c in added || c in removed ensures (c.ModelAdded? || c.ModelRemoved?) && Earlier(ab.models, c.model, m) {
        ModelsIff(n, was, now, prior, c);
        EarlierAt(ab.models, k - 1, c.model);
      }
      forall c | c in added || c in removed
        ensures c.name == n && (c in added ==> c.ModelAdded?) && (c in removed ==> c.ModelRemoved?)
      {
        ModelsIff(n, was, now, prior, c);
      }
      ConcatInOrder(ab, added, if m in now && m !in was then [ModelAdded(n, m)] else []);
      ConcatInOrder(ab, removed, if m in was && m !in now then [ModelRemoved(n, m)] else []);
    }
  }

  lemma ItemInOrder(ab: Alphabet, n: Name, was: Item, now: Item)
    ensures InOrder(ab, ItemChanges(n, was, now, ab.models))
    ensures forall c :: c in ItemChanges(n, was, now, ab.models) ==> c.name == n && Kind(c) == 2
  {
    FieldsInOrder(ab, n, was, now, |FIELDS|);
    assert FIELDS[..|FIELDS|] == FIELDS;
    hide FieldChanges, ModelsAdded, ModelsRemoved;
    if was.models.Some? && now.models.Some? {
      var a, b := was.models.value, now.models.value;
      ModelsInOrder(ab, n, a, b, |ab.models|);
      assert ab.models[..|ab.models|] == ab.models;
      var added, removed := ModelsAdded(n, a, b, ab.models), ModelsRemoved(n, a, b, ab.models);
      forall c
        ensures (c in added ==> c.ModelAdded? && c.name == n) && (c in removed ==> c.ModelRemoved? && c.name == n)
      {
        ModelsIff(n, a, b, ab.models, c);
      }
      ConcatInOrder(ab, added, removed);
      ConcatInOrder(ab, FieldChanges(n, was, now, FIELDS), added + removed);
    } else {
      assert FieldChanges(n, was, now, FIELDS) + [] == FieldChanges(n, was, now, FIELDS);
    }
  }

  lemma {:induction false} KeptInOrder(was: Groups, now: Groups, ab: Alphabet, k: nat)
    requires k <= |ab.names|
    ensures InOrder(ab, KeptIn(was, now, ab.names[..k], ab.models))
    ensures forall c :: c in KeptIn(was, now, ab.names[..k], ab.models) ==> c.name in ab.names[..k] && Kind(c) == 2
  {
    hide ItemChanges;
    if k > 0 {
      var prior, n := ab.names[..k - 1], ab.names[k - 1];
      assert ab.names[..k][..k - 1] == prior && ab.names[..k] == prior + [n];
      KeptInOrder(was, now, ab, k - 1);
      var kept := KeptIn(was, now, prior, ab.models);
      if n in was && n in now {
        ItemInOrder(ab, n, was[n], now[n]);
        forall c | c in kept ensures Earlier(ab.names, c.name, n) {
          EarlierAt(ab.names, k - 1, c.name);
        }
        ConcatInOrder(ab, kept, ItemChanges(n, was[n], now[n], ab.models));
      } else {
        assert kept + [] == kept;
      }
    }
  }

  /** The rows come in that order; so no change is reported twice. */
  lemma DiffInOrder(was: Groups, now: Groups, ab: Alphabet)
    ensures InOrder(ab, Diff(was, now, ab))
  {
    var n := |ab.names|;
    assert ab.names[..n] == ab.names;
    AddedInOrder(was, now, ab, n);
    KeptInOrder(was, now, ab, n);
    hide AddedIn, RemovedIn, KeptIn;
    var added, removed, kept := AddedIn(was, now, ab.names), RemovedIn(was, now, ab.names),
                                KeptIn(was, now, ab.names, ab.models);
    forall c ensures (c in added ==> Kind(c) == 0) && (c in removed ==> Kind(c) == 1) {
      AddedIff(was, now, ab.names, c);
      RemovedIff(was, now, ab.names, c);
    }
    ConcatInOrder(ab, added, removed);
    ConcatInOrder(ab, added + removed, kept);
  }

  lemma NotAheadOfItself(ab: Alphabet, c: Change)
    requires Distinct(ab.names) && Distinct(ab.models)
    ensures !Ahead(ab, c, c)
  {
  }

  /** Each thing that differs is reported once. */
  lemma DiffReportsOnce(was: Groups, now: Groups, ab: Alphabet, i: nat, j: nat)
    requires Distinct(ab.names) && Distinct(ab.models) && i < j < |Diff(was, now, ab)|
    ensures Diff(was, now, ab)[i] != Diff(was, now, ab)[j]
  {
    DiffInOrder(was, now, ab);
    hide Diff, Ahead;
    NotAheadOfItself(ab, Diff(was, now, ab)[i]);
  }
}
