/** Rolling a group's displayed ratio back to the time of a request, along the ratio changes logged for
    the site.  The changes are not told apart by group: a change applies if its new value is the
    value at hand. */
module RatioRollback {

  import opened Options
  import opened ChangeLog
  import opened SiteDetection

  datatype RatioChange = RatioChange(before: real, after: real, at: Time)

  const CLOSE := 0.000_000_001

  /** Numbers, and Booleans as 0 and 1. */
  function NumberIn(item: Item): Option<real> {
    match item.Get(Ratio)
    case Some(Number(n)) => Some(n)
    case Some(Flag(b)) => Some(if b then 1.0 else 0.0)
    case _ => None
  }

  predicate Numeric(row: Row) {
    row.change.RatioChanged? && NumberIn(row.change.before).Some? && NumberIn(row.change.after).Some?
  }

  function Parsed(row: Row): RatioChange
    requires Numeric(row)
  {
    RatioChange(NumberIn(row.change.before).value, NumberIn(row.change.after).value, row.at)
  }

  /** `_ratioChangesBySite` */
  function RatioChanges(rows: seq<Row>): seq<RatioChange> {
    if rows == [] then []
    else
      var before := RatioChanges(rows[..|rows| - 1]);
      if Numeric(rows[|rows| - 1]) then before + [Parsed(rows[|rows| - 1])] else before
  }

  predicate Close(a: real, b: real) {
    -CLOSE <= a - b <= CLOSE
  }

  /** `_displayedRatioAt`, from a known value. */
  function RolledBack(changes: seq<RatioChange>, value: real, requestAt: Time): real {
    if changes == [] then value
    else
      var c := changes[|changes| - 1];
      if c.at <= requestAt then value
      else RolledBack(changes[..|changes| - 1], if Close(value, c.after) then c.before else value, requestAt)
  }

  method RatioChangesBySite(rows: seq<Row>) returns (changes: seq<RatioChange>)
    ensures changes == RatioChanges(rows)
  {
    changes := [];
    for i := 0 to |rows|
      invariant changes == RatioChanges(rows[..i])
    {
      assert rows[..i + 1][..i] == rows[..i];
      if !rows[i].change.RatioChanged? {
        continue;
      }
      var before, after := NumberIn(rows[i].change.before), NumberIn(rows[i].change.after);
      if before.None? || after.None? {
        continue;
      }
      changes := changes + [RatioChange(before.value, after.value, rows[i].at)];
    }
    assert rows[..|rows|] == rows;
  }

  method DisplayedRatioAt(changes: seq<RatioChange>, snapshot: Option<real>, requestAt: Time) returns (r: Option<real>)
    ensures r == if snapshot.None? then None else Some(RolledBack(changes, snapshot.value, requestAt))
  {
    if snapshot.None? {
      return None;
    }
    var value := snapshot.value;
    var i := |changes|;
    assert changes[..i] == changes;
    while i > 0
      invariant 0 <= i <= |changes|
      invariant RolledBack(changes[..i], value, requestAt) == RolledBack(changes, snapshot.value, requestAt)
    {
      i := i - 1;
      var c := changes[i];
      assert changes[..i + 1][..i] == changes[..i];
      if c.at <= requestAt {
        return Some(value);
      }
      if Close(value, c.after) {
        value := c.before;
      }
    }
    return Some(value);
  }

  /** A ratio that can be compared: a number, or a Boolean, which counts as 1 or 0. */
  predicate IsRatio(v: Option<Value>, r: real) {
    v == Some(Number(r)) || (v == Some(Flag(true)) && r == 1.0) || (v == Some(Flag(false)) && r == 0.0)
  }

  /** The walk goes by exactly the rows of a ratio change from one such ratio to another, of any group and
      either stream. */
  lemma {:induction false} RatioChangesIff(rows: seq<Row>, c: RatioChange)
    ensures c in RatioChanges(rows) <==>
      exists i :: 0 <= i < |rows| && rows[i].change.RatioChanged? && rows[i].at == c.at
        && IsRatio(rows[i].change.before.Get(Ratio), c.before) && IsRatio(rows[i].change.after.Get(Ratio), c.after)
  {
    if rows != [] {
      var n := |rows| - 1;
      RatioChangesIff(rows[..n], c);
      assert rows == rows[..n] + [rows[n]];
    }
  }

  /** A change applies if its new value is the value at hand up to one in a billion. */
  lemma OneChangeBack(c: RatioChange, value: real, requestAt: Time)
    ensures RolledBack([c], value, requestAt)
      == if requestAt < c.at && -0.000_000_001 <= value - c.after <= 0.000_000_001 then c.before else value
  {
    assert [c][..0] == [];
    assert RolledBack([], c.before, requestAt) == c.before && RolledBack([], value, requestAt) == value;
  }

  // ---------------------------------------------------------------------------------------
  // The group's own changes
  // ---------------------------------------------------------------------------------------

  /** A numeric ratio change of the group in the public stream. */
  predicate Own(row: Row, n: Name) {
    Numeric(row) && row.stream.PublicGroups? && row.change.name == n
  }

  /** Going back along the group's own changes only. */
  function OwnBack(rows: seq<Row>, n: Name, value: real, requestAt: Time): real {
    if rows == [] then value
    else
      var row, rest := rows[|rows| - 1], rows[..|rows| - 1];
      if Own(row, n) && row.at > requestAt then OwnBack(rest, n, Parsed(row).before, requestAt)
      else OwnBack(rest, n, value, requestAt)
  }

  /** The group's own changes after the request form a chain that ends at the given value. */
  predicate Chained(rows: seq<Row>, n: Name, value: real, requestAt: Time) {
    rows != [] ==>
      var row, rest := rows[|rows| - 1], rows[..|rows| - 1];
      if Own(row, n) && row.at > requestAt then
        value == Parsed(row).after && Chained(rest, n, Parsed(row).before, requestAt)
      else Chained(rest, n, value, requestAt)
  }

  /** No other change met on the way back lands on the group's ratio at that point. */
  predicate NoCollision(rows: seq<Row>, n: Name, value: real, requestAt: Time) {
    rows != [] ==>
      var row, rest := rows[|rows| - 1], rows[..|rows| - 1];
      if Own(row, n) && row.at > requestAt then NoCollision(rest, n, Parsed(row).before, requestAt)
      else
        && (Numeric(row) && row.at > requestAt ==> !Close(value, Parsed(row).after))
        && NoCollision(rest, n, value, requestAt)
  }

  ghost predicate InOrder(rows: seq<Row>) {
    forall i, j :: 0 <= i < j < |rows| ==> rows[i].at <= rows[j].at
  }

  lemma {:induction false} NothingAfter(rows: seq<Row>, n: Name, value: real, requestAt: Time)
    requires forall i :: 0 <= i < |rows| ==> rows[i].at <= requestAt
    ensures OwnBack(rows, n, value, requestAt) == value
    ensures Chained(rows, n, value, requestAt)
  {
    if rows != [] { NothingAfter(rows[..|rows| - 1], n, value, requestAt); }
  }

  /** Rolling back gives exactly what going back along the group's own changes gives, if those form a
      chain and no other change collides. */
  lemma {:induction false} RollbackInvertsHistory(rows: seq<Row>, n: Name, value: real, requestAt: Time)
    requires InOrder(rows) && Chained(rows, n, value, requestAt) && NoCollision(rows, n, value, requestAt)
    ensures RolledBack(RatioChanges(rows), value, requestAt) == OwnBack(rows, n, value, requestAt)
  {
    if rows != [] {
      var row, rest := rows[|rows| - 1], rows[..|rows| - 1];
      if Numeric(row) {
        assert RatioChanges(rows)[..|RatioChanges(rows)| - 1] == RatioChanges(rest);
        if row.at <= requestAt {
          NothingAfter(rows, n, value, requestAt);
        } else {
          RollbackInvertsHistory(rest, n, if Own(row, n) then Parsed(row).before else value, requestAt);
        }
      } else {
        RollbackInvertsHistory(rest, n, value, requestAt);
      }
    }
  }

  // ---------------------------------------------------------------------------------------
  // Exactly when the rollback is right
  // ---------------------------------------------------------------------------------------

  predicate Counts(row: Row, requestAt: Time) {
    Numeric(row) && row.at > requestAt
  }

  /** The walk is at the group's ratio, and ends there: it leaves it where a change of something else
      lands on the ratio, and must come back. */
  predicate OnTrack(rows: seq<Row>, n: Name, ratio: real, requestAt: Time)
    decreases |rows|
  {
    rows != [] ==>
      var row, rest := rows[|rows| - 1], rows[..|rows| - 1];
      if !Counts(row, requestAt) then OnTrack(rest, n, ratio, requestAt)
      else if Own(row, n) then OnTrack(rest, n, Parsed(row).before, requestAt)
      else if Close(ratio, Parsed(row).after) then Returns(rest, n, ratio, Parsed(row).before, requestAt)
      else OnTrack(rest, n, ratio, requestAt)
  }

  /** The walk has strayed, and comes back: at a change of the group's own that meets it, or by being
      at the group's ratio when it ends. */
  predicate Returns(rows: seq<Row>, n: Name, ratio: real, stray: real, requestAt: Time)
    decreases |rows|
  {
    if rows == [] then stray == ratio
    else
      var row, rest := rows[|rows| - 1], rows[..|rows| - 1];
      if !Counts(row, requestAt) then Returns(rest, n, ratio, stray, requestAt)
      else if Own(row, n) && Close(stray, ratio) then OnTrack(rest, n, Parsed(row).before, requestAt)
      else if Own(row, n) then Returns(rest, n, Parsed(row).before, stray, requestAt)
      else Returns(rest, n, ratio, if Close(stray, Parsed(row).after) then Parsed(row).before else stray, requestAt)
  }

  lemma {:induction false} NothingCounts(rows: seq<Row>, n: Name, ratio: real, stray: real, requestAt: Time)
    requires forall i :: 0 <= i < |rows| ==> rows[i].at <= requestAt
    ensures RolledBack(RatioChanges(rows), stray, requestAt) == stray
    ensures OnTrack(rows, n, ratio, requestAt)
    ensures Returns(rows, n, ratio, stray, requestAt) <==> stray == ratio
  {
    if rows != [] {
      NothingCounts(rows[..|rows| - 1], n, ratio, stray, requestAt);
      if Numeric(rows[|rows| - 1]) {
        assert RatioChanges(rows)[|RatioChanges(rows)| - 1].at <= requestAt;
      }
    }
  }

  /** A walk that starts from any value ends at the group's ratio exactly if it returns. */
  lemma {:induction false} StrayedRollbackIff(rows: seq<Row>, n: Name, ratio: real, stray: real, requestAt: Time)
    requires InOrder(rows) && Chained(rows, n, ratio, requestAt)
    ensures RolledBack(RatioChanges(rows), stray, requestAt) == OwnBack(rows, n, ratio, requestAt) <==>
      Returns(rows, n, ratio, stray, requestAt)
    ensures OnTrack(rows, n, ratio, requestAt) <==> Returns(rows, n, ratio, ratio, requestAt)
    decreases |rows|
  {
    if rows != [] {
      var row, rest := rows[|rows| - 1], rows[..|rows| - 1];
      if !Numeric(row) {
        StrayedRollbackIff(rest, n, ratio, stray, requestAt);
      } else if row.at <= requestAt {
        NothingCounts(rows, n, ratio, stray, requestAt);
        NothingCounts(rows, n, ratio, ratio, requestAt);
        NothingAfter(rows, n, ratio, requestAt);
      } else {
        assert RatioChanges(rows)[..|RatioChanges(rows)| - 1] == RatioChanges(rest);
        var next := if Own(row, n) then Parsed(row).before else ratio;
        var walk := if Close(stray, Parsed(row).after) then Parsed(row).before else stray;
        StrayedRollbackIff(rest, n, next, walk, requestAt);
      }
    }
  }

  /** Over any log in which the group's own changes form a chain, the rollback gives the group's ratio
      at the request exactly if its walk ends on track. */
  lemma RollbackRightIff(rows: seq<Row>, n: Name, value: real, requestAt: Time)
    requires InOrder(rows) && Chained(rows, n, value, requestAt)
    ensures RolledBack(RatioChanges(rows), value, requestAt) == OwnBack(rows, n, value, requestAt) <==>
      OnTrack(rows, n, value, requestAt)
  {
    StrayedRollbackIff(rows, n, value, value, requestAt);
  }

  /** No change that counts lands on the value. */
  predicate NoLanding(rows: seq<Row>, value: real, requestAt: Time) {
    forall i :: 0 <= i < |rows| && Counts(rows[i], requestAt) ==> !Close(value, Parsed(rows[i]).after)
  }

  lemma {:induction false} NoLandingKeeps(rows: seq<Row>, value: real, requestAt: Time)
    requires NoLanding(rows, value, requestAt)
    ensures RolledBack(RatioChanges(rows), value, requestAt) == value
  {
    if rows != [] {
      var row, rest := rows[|rows| - 1], rows[..|rows| - 1];
      NoLandingKeeps(rest, value, requestAt);
      if Numeric(row) {
        assert RatioChanges(rows)[..|RatioChanges(rows)| - 1] == RatioChanges(rest);
      }
    }
  }

  lemma {:induction false} RollConcat(a: seq<Row>, b: seq<Row>, value: real, requestAt: Time)
    requires InOrder(a + b)
    ensures RolledBack(RatioChanges(a + b), value, requestAt)
      == RolledBack(RatioChanges(a), RolledBack(RatioChanges(b), value, requestAt), requestAt)
  {
    if b == [] {
      assert a + b == a;
    } else {
      var row, rest, all := b[|b| - 1], b[..|b| - 1], a + b;
      assert all[..|all| - 1] == a + rest && all[|all| - 1] == row;
      if !Numeric(row) {
        RollConcat(a, rest, value, requestAt);
      } else {
        assert RatioChanges(all)[..|RatioChanges(all)| - 1] == RatioChanges(a + rest);
        assert RatioChanges(b)[..|RatioChanges(b)| - 1] == RatioChanges(rest);
        if row.at <= requestAt {
          forall i | 0 <= i < |a| ensures a[i].at <= requestAt {
            assert all[i].at <= all[|all| - 1].at;
          }
          NothingCounts(a, row.change.name, value, value, requestAt);
        } else {
          RollConcat(a, rest, if Close(value, Parsed(row).after) then Parsed(row).before else value, requestAt);
        }
      }
    }
  }

  /** One collision: the newer part of the log has none, then a change of something else lands on the
      group's ratio, and nothing older meets the value it leads to.  The rollback gives that value, so
      it is right exactly if that happens to be the group's ratio at the request. */
  lemma CollisionMisleads(older: seq<Row>, row: Row, newer: seq<Row>, n: Name, value: real, requestAt: Time)
    requires InOrder(older + [row] + newer)
    requires Chained(newer, n, value, requestAt) && NoCollision(newer, n, value, requestAt)
    requires Counts(row, requestAt) && !Own(row, n) && Close(OwnBack(newer, n, value, requestAt), Parsed(row).after)
    requires NoLanding(older, Parsed(row).before, requestAt)
    ensures RolledBack(RatioChanges(older + [row] + newer), value, requestAt) == Parsed(row).before
    ensures OwnBack(older + [row] + newer, n, value, requestAt)
      == OwnBack(older, n, OwnBack(newer, n, value, requestAt), requestAt)
    ensures var all := older + [row] + newer;
            RolledBack(RatioChanges(all), value, requestAt) == OwnBack(all, n, value, requestAt) <==>
              Parsed(row).before == OwnBack(older, n, OwnBack(newer, n, value, requestAt), requestAt)
  {
    var all := older + [row] + newer;
    forall i, j | 0 <= i < j < |newer| ensures newer[i].at <= newer[j].at {
      assert all[|older| + 1 + i].at <= all[|older| + 1 + j].at;
    }
    forall i, j | 0 <= i < j < |older + [row]| ensures (older + [row])[i].at <= (older + [row])[j].at {
      assert all[i].at <= all[j].at;
    }
    RollbackInvertsHistory(newer, n, value, requestAt);
    var ratio := OwnBack(newer, n, value, requestAt);
    RollConcat(older + [row], newer, value, requestAt);
    RollConcat(older, [row], ratio, requestAt);
    OneRowRollback(row, ratio, requestAt);
    NoLandingKeeps(older, Parsed(row).before, requestAt);
    BackConcat(older + [row], newer, n, value, requestAt);
    BackConcat(older, [row], n, ratio, requestAt);
    assert [row][..0] == [];
  }

  lemma OneRowRollback(row: Row, value: real, requestAt: Time)
    requires Counts(row, requestAt)
    ensures RolledBack(RatioChanges([row]), value, requestAt)
      == if Close(value, Parsed(row).after) then Parsed(row).before else value
  {
    assert [row][..0] == [];
    assert RatioChanges([row]) == [Parsed(row)];
    assert RatioChanges([row])[..0] == [];
  }

  // ---------------------------------------------------------------------------------------
  // The ratio in force
  // ---------------------------------------------------------------------------------------

  /** Every success snapshot has the group with a number for a ratio. */
  ghost predicate AlwaysPriced(run: Run, n: Name) {
    forall k :: 0 <= k < |run| && run[k].0.Collected? ==>
      n in run[k].0.groups && NumberIn(run[k].0.groups[n]).Some?
  }

  ghost predicate TimesAscend(run: Run) {
    forall i, j :: 0 <= i < j < |run| ==> run[i].1 <= run[j].1
  }

  /** The group's ratio in the last success snapshot taken at or before the given time. */
  function InForce(run: Run, n: Name, at: Time): Option<real> {
    if run == [] then None
    else
      var (d, t) := run[|run| - 1];
      if d.Collected? && t <= at then (if n in d.groups then NumberIn(d.groups[n]) else None)
      else InForce(run[..|run| - 1], n, at)
  }

  /** The ratio changes of one group among some changes. */
  function RatioChangesOf(cs: seq<Change>, n: Name): seq<Change> {
    if cs == [] then []
    else
      var c := cs[|cs| - 1];
      RatioChangesOf(cs[..|cs| - 1], n) + (if c.RatioChanged? && c.name == n then [c] else [])
  }

  lemma {:induction false} RatioChangesOfConcat(a: seq<Change>, b: seq<Change>, n: Name)
    ensures RatioChangesOf(a + b, n) == RatioChangesOf(a, n) + RatioChangesOf(b, n)
  {
    if b == [] {
      assert a + b == a;
    } else {
      RatioChangesOfConcat(a, b[..|b| - 1], n);
      assert (a + b)[..|a + b| - 1] == a + b[..|b| - 1];
    }
  }

  predicate NoRatioChange(cs: seq<Change>, n: Name) {
    forall i :: 0 <= i < |cs| ==> !(cs[i].RatioChanged? && cs[i].name == n)
  }

  lemma {:induction false} NoneOf(cs: seq<Change>, n: Name)
    requires NoRatioChange(cs, n)
    ensures RatioChangesOf(cs, n) == []
  {
    if cs != [] { NoneOf(cs[..|cs| - 1], n); }
  }

  /** The ratio change of a group, if its ratio differs. */
  function RatioStep(n: Name, was: Item, now: Item): seq<Change> {
    if was.Get(Ratio) == now.Get(Ratio) then [] else [RatioChanged(n, was, now)]
  }

  lemma OneFieldRatio(n: Name, was: Item, now: Item, f: Field)
    ensures RatioChangesOf(FieldChange(n, was, now, f), n) == if f.Ratio? then RatioStep(n, was, now) else []
  {
    var cs := FieldChange(n, was, now, f);
    if cs != [] { assert cs[..0] == []; }
  }

  lemma {:induction false} RatioAmongFields(n: Name, was: Item, now: Item, fields: seq<Field>)
    requires forall i :: 1 <= i < |fields| ==> fields[i] != Ratio
    requires fields != [] && fields[0] == Ratio
    ensures RatioChangesOf(FieldChanges(n, was, now, fields), n) == RatioStep(n, was, now)
  {
    hide RatioChangesOf, FieldChange, RatioStep;
    var k := |fields| - 1;
    var before, last := FieldChanges(n, was, now, fields[..k]), FieldChange(n, was, now, fields[k]);
    RatioChangesOfConcat(before, last, n);
    OneFieldRatio(n, was, now, fields[k]);
    if k == 0 {
      NoneOf(before, n);
    } else {
      RatioAmongFields(n, was, now, fields[..k]);
    }
  }

  lemma RatioInItem(n: Name, was: Item, now: Item, models: seq<Name>)
    ensures RatioChangesOf(ItemChanges(n, was, now, models), n) == RatioStep(n, was, now)
  {
    hide RatioChangesOf;
    RatioAmongFields(n, was, now, FIELDS);
    RatioChangesOfConcat(FieldChanges(n, was, now, FIELDS), ModelChanges(n, was, now, models), n);
    if was.models.Some? && now.models.Some? {
      AreModelsOnly(n, was.models.value, now.models.value, models);
    }
    NoneOf(ModelChanges(n, was, now, models), n);
  }

  lemma {:induction false} RatioInKept(was: Groups, now: Groups, names: seq<Name>, models: seq<Name>, n: Name)
    requires Distinct(names) && n in was && n in now
    ensures RatioChangesOf(KeptIn(was, now, names, models), n)
      == if n in names then RatioStep(n, was[n], now[n]) else []
  {
    hide ItemChanges, RatioChangesOf, RatioStep;
    if names == [] {
      NoneOf([], n);
    } else {
      var k := |names| - 1;
      var m := names[k];
      assert names == names[..k] + [m];
      RatioInKept(was, now, names[..k], models, n);
      var before := KeptIn(was, now, names[..k], models);
      var last := if m in was && m in now then ItemChanges(m, was[m], now[m], models) else [];
      RatioChangesOfConcat(before, last, n);
      if m == n {
        assert n !in names[..k];
        RatioInItem(n, was[n], now[n], models);
      } else {
        if m in was && m in now { ItemAbout(m, was[m], now[m], models); }
        NoneOf(last, n);
      }
    }
  }

  lemma {:induction false} NoRatioInSets(was: Groups, now: Groups, names: seq<Name>, n: Name)
    ensures NoRatioChange(AddedIn(was, now, names), n) && NoRatioChange(RemovedIn(was, now, names), n)
  {
    if names != [] { NoRatioInSets(was, now, names[..|names| - 1], n); }
  }

  /** A difference holds exactly one ratio change of a group whose ratio differs, and none otherwise. */
  lemma RatioInDiff(was: Groups, now: Groups, ab: Alphabet, n: Name)
    requires AlphabetOk(ab, was, now) && n in was && n in now
    ensures RatioChangesOf(Diff(was, now, ab), n) == RatioStep(n, was[n], now[n])
  {
    hide RatioChangesOf, AddedIn, RemovedIn, KeptIn, RatioStep;
    var added, removed := AddedIn(was, now, ab.names), RemovedIn(was, now, ab.names);
    var kept := KeptIn(was, now, ab.names, ab.models);
    RatioChangesOfConcat(added + removed, kept, n);
    RatioChangesOfConcat(added, removed, n);
    NoRatioInSets(was, now, ab.names, n);
    NoneOf(added, n);
    NoneOf(removed, n);
    RatioInKept(was, now, ab.names, ab.models, n);
  }

  lemma {:induction false} BackConcat(a: seq<Row>, b: seq<Row>, n: Name, value: real, requestAt: Time)
    ensures OwnBack(a + b, n, value, requestAt) == OwnBack(a, n, OwnBack(b, n, value, requestAt), requestAt)
    ensures Chained(a + b, n, value, requestAt) <==>
      Chained(b, n, value, requestAt) && Chained(a, n, OwnBack(b, n, value, requestAt), requestAt)
  {
    if b == [] {
      assert a + b == a;
    } else {
      var row, rest := b[|b| - 1], b[..|b| - 1];
      assert (a + b)[..|a + b| - 1] == a + rest;
      BackConcat(a, rest, n, if Own(row, n) && row.at > requestAt then Parsed(row).before else value, requestAt);
    }
  }

  lemma {:induction false} NoOwnRows(stream: Stream, cs: seq<Change>, at: Time, n: Name, value: real, requestAt: Time)
    requires stream.LoginGroups? || RatioChangesOf(cs, n) == []
    ensures OwnBack(RowsOf(stream, cs, at), n, value, requestAt) == value
    ensures Chained(RowsOf(stream, cs, at), n, value, requestAt)
  {
    if cs != [] {
      var rows := RowsOf(stream, cs, at);
      assert rows[..|rows| - 1] == RowsOf(stream, cs[..|cs| - 1], at);
      NoOwnRows(stream, cs[..|cs| - 1], at, n, value, requestAt);
    }
  }

  lemma {:induction false} OneOwnRow(cs: seq<Change>, at: Time, n: Name, c: Change, requestAt: Time)
    requires RatioChangesOf(cs, n) == [c] && requestAt < at
    requires c.RatioChanged? && c.name == n && NumberIn(c.before).Some? && NumberIn(c.after).Some?
    ensures OwnBack(RowsOf(PublicGroups, cs, at), n, NumberIn(c.after).value, requestAt) == NumberIn(c.before).value
    ensures Chained(RowsOf(PublicGroups, cs, at), n, NumberIn(c.after).value, requestAt)
  {
    var rows := RowsOf(PublicGroups, cs, at);
    var rest, last := cs[..|cs| - 1], cs[|cs| - 1];
    assert rows[..|rows| - 1] == RowsOf(PublicGroups, rest, at);
    if last.RatioChanged? && last.name == n {
      assert RatioChangesOf(cs, n)[|RatioChangesOf(cs, n)| - 1] == last;
      assert RatioChangesOf(rest, n) == [];
      NoOwnRows(PublicGroups, rest, at, n, NumberIn(c.before).value, requestAt);
    } else {
      OneOwnRow(rest, at, n, c, requestAt);
    }
  }

  /** Going back over the rows of one success leads from its ratio to the one before. */
  lemma BackOverSuccess(s: Site, d: Detection, at: Time, ab: Alphabet, n: Name, requestAt: Time)
    requires d.Collected? && s.latest.Some? && requestAt < at
    requires AlphabetOk(ab, s.latest.value, d.groups)
    requires n in s.latest.value && n in d.groups
    requires NumberIn(s.latest.value[n]).Some? && NumberIn(d.groups[n]).Some?
    ensures var rows := Detected(s, d, at, ab).rows;
            var now, was := NumberIn(d.groups[n]).value, NumberIn(s.latest.value[n]).value;
            && OwnBack(rows, n, now, requestAt) == OwnBack(s.rows, n, was, requestAt)
            && (Chained(rows, n, now, requestAt) <==> Chained(s.rows, n, was, requestAt))
  {
    hide Diff, RatioChangesOf, OwnBack, Chained, RowsOf, LoginChanges;
    var cs := Diff(s.latest.value, d.groups, ab);
    var public := RowsOf(PublicGroups, cs, at);
    var login := RowsOf(LoginGroups, LoginChanges(s, d.login, ab), at);
    var now := NumberIn(d.groups[n]).value;
    BackConcat(s.rows + public, login, n, now, requestAt);
    BackConcat(s.rows, public, n, now, requestAt);
    NoOwnRows(LoginGroups, LoginChanges(s, d.login, ab), at, n, now, requestAt);
    RatioInDiff(s.latest.value, d.groups, ab, n);
    if s.latest.value[n].Get(Ratio) == d.groups[n].Get(Ratio) {
      NoOwnRows(PublicGroups, cs, at, n, now, requestAt);
    } else {
      OneOwnRow(cs, at, n, RatioChanged(n, s.latest.value[n], d.groups[n]), requestAt);
    }
  }

  lemma {:induction false} RowsBefore(run: Run, ab: Alphabet, at: Time)
    requires forall k :: 0 <= k < |run| ==> run[k].1 <= at
    ensures forall i :: 0 <= i < |AfterRun(run, ab).rows| ==> AfterRun(run, ab).rows[i].at <= at
  {
    if run != [] {
      var n := |run| - 1;
      RowsBefore(run[..n], ab, at);
      var mid := AfterRun(run[..n], ab);
      if run[n].0.Collected? {
        TimesOfRows(PublicGroups, PublicChanges(mid, run[n].0.groups, ab), run[n].1);
        TimesOfRows(LoginGroups, LoginChanges(mid, run[n].0.login, ab), run[n].1);
      }
    }
  }

  lemma {:induction false} TimesOfRows(stream: Stream, cs: seq<Change>, at: Time)
    ensures forall i :: 0 <= i < |RowsOf(stream, cs, at)| ==> RowsOf(stream, cs, at)[i].at == at
  {
    if cs != [] { TimesOfRows(stream, cs[..|cs| - 1], at); }
  }

  /** The group as the latest success snapshot has it. */
  function LatestRatio(s: Site, n: Name): Option<real> {
    if s.latest.Some? && n in s.latest.value then NumberIn(s.latest.value[n]) else None
  }

  lemma {:induction false} LatestIsPriced(run: Run, ab: Alphabet, n: Name)
    requires AlwaysPriced(run, n)
    ensures AfterRun(run, ab).latest.Some? ==> LatestRatio(AfterRun(run, ab), n).Some?
    ensures AfterRun(run, ab).latest.Some? <==> FirstOf(run).Some?
  {
    if run != [] { LatestIsPriced(run[..|run| - 1], ab, n); }
  }

  lemma {:induction false} InForceNeedsSuccess(run: Run, n: Name, at: Time)
    requires InForce(run, n, at).Some?
    ensures FirstOf(run).Some?
  {
    var k := |run| - 1;
    if !(run[k].0.Collected? && run[k].1 <= at) { InForceNeedsSuccess(run[..k], n, at); }
  }

  lemma {:induction false} AllBefore(run: Run, ab: Alphabet, n: Name, at: Time)
    requires AlwaysPriced(run, n) && (forall k :: 0 <= k < |run| ==> run[k].1 <= at)
    ensures InForce(run, n, at) == LatestRatio(AfterRun(run, ab), n)
  {
    if run != [] { AllBefore(run[..|run| - 1], ab, n, at); }
  }

  /** The log of any run of detections has the group's ratio changes in a chain, and going back along
      them gives the ratio of the last success snapshot at or before the request. */
  lemma {:induction false} OwnChangesTellHistory(run: Run, ab: Alphabet, n: Name, requestAt: Time)
    requires InAlphabet(ab, run) && AlwaysPriced(run, n) && TimesAscend(run)
    requires InForce(run, n, requestAt).Some?
    ensures var s := AfterRun(run, ab);
            && LatestRatio(s, n).Some?
            && Chained(s.rows, n, LatestRatio(s, n).value, requestAt)
            && OwnBack(s.rows, n, LatestRatio(s, n).value, requestAt) == InForce(run, n, requestAt).value
  {
    hide Chained, OwnBack, Detected, AlphabetOk, Covers;
    var k := |run| - 1;
    InForceNeedsSuccess(run, n, requestAt);
    LatestIsPriced(run, ab, n);
    if run[k].1 <= requestAt {
      RowsBefore(run, ab, requestAt);
      AllBefore(run, ab, n, requestAt);
      NothingAfter(AfterRun(run, ab).rows, n, LatestRatio(AfterRun(run, ab), n).value, requestAt);
    } else {
      OwnChangesTellHistory(run[..k], ab, n, requestAt);
      LastSuccessTells(run, ab, n, requestAt);
    }
  }

  /** The step of the induction: the last detection came after the request. */
  lemma LastSuccessTells(run: Run, ab: Alphabet, n: Name, requestAt: Time)
    requires run != [] && InAlphabet(ab, run) && AlwaysPriced(run, n) && requestAt < run[|run| - 1].1
    requires LatestRatio(AfterRun(run[..|run| - 1], ab), n).Some?
    ensures var mid, s := AfterRun(run[..|run| - 1], ab), AfterRun(run, ab);
            && LatestRatio(s, n).Some?
            && (Chained(mid.rows, n, LatestRatio(mid, n).value, requestAt) ==>
                  Chained(s.rows, n, LatestRatio(s, n).value, requestAt))
            && OwnBack(s.rows, n, LatestRatio(s, n).value, requestAt)
                 == OwnBack(mid.rows, n, LatestRatio(mid, n).value, requestAt)
  {
    hide Chained, OwnBack, AlphabetOk, Covers, PublicChanges, LoginChanges, RowsOf;
    var k := |run| - 1;
    var mid := AfterRun(run[..k], ab);
    if run[k].0.Collected? {
      CoveredStep(run, ab);
      BackOverSuccess(mid, run[k].0, run[k].1, ab, n, requestAt);
    }
  }

  lemma CoveredStep(run: Run, ab: Alphabet)
    requires run != [] && InAlphabet(ab, run) && run[|run| - 1].0.Collected?
    requires AfterRun(run[..|run| - 1], ab).latest.Some?
    ensures AlphabetOk(ab, AfterRun(run[..|run| - 1], ab).latest.value, run[|run| - 1].0.groups)
  {
    hide Detected;
    LatestIsCovered(run[..|run| - 1], ab);
  }

  lemma {:induction false} RowsInOrder(run: Run, ab: Alphabet)
    requires TimesAscend(run)
    ensures InOrder(AfterRun(run, ab).rows)
  {
    if run != [] {
      var k := |run| - 1;
      RowsInOrder(run[..k], ab);
      RowsBefore(run[..k], ab, run[k].1);
      var mid := AfterRun(run[..k], ab);
      if run[k].0.Collected? {
        TimesOfRows(PublicGroups, PublicChanges(mid, run[k].0.groups, ab), run[k].1);
        TimesOfRows(LoginGroups, LoginChanges(mid, run[k].0.login, ab), run[k].1);
      }
    }
  }

  /** The log only grows. */
  lemma {:induction false} RowsGrow(run: Run, ab: Alphabet, k: nat)
    requires k <= |run|
    ensures var s, all := AfterRun(run[..k], ab).rows, AfterRun(run, ab).rows;
            |s| <= |all| && all[..|s|] == s
  {
    if k == |run| {
      assert run[..k] == run;
    } else {
      var m := |run| - 1;
      RowsGrow(run[..m], ab, k);
      assert run[..m][..k] == run[..k];
    }
  }

  /** The part of the log that was written after the first `k` detections. */
  function LaterRows(run: Run, ab: Alphabet, k: nat): seq<Row>
    requires k <= |run|
  {
    var s, all := AfterRun(run[..k], ab).rows, AfterRun(run, ab).rows;
    if |s| <= |all| then all[|s|..] else []
  }

  /** From detection to rollback: an audit after `k` detections stored the group's displayed ratio, and
      the log has grown since.  Rolling the stored ratio back along the whole log gives the ratio that
      was displayed at the time of the request, exactly if the walk returns to it from where the later
      part of the log led; in particular if nothing later lands on the stored ratio and nothing
      earlier collides. */
  lemma RollbackFindsRatioInForce(run: Run, ab: Alphabet, n: Name, k: nat, requestAt: Time)
    requires k <= |run| && InAlphabet(ab, run[..k]) && AlwaysPriced(run[..k], n) && TimesAscend(run)
    requires InForce(run[..k], n, requestAt).Some?
    ensures var s := AfterRun(run[..k], ab);
            var inForce := InForce(run[..k], n, requestAt).value;
            && LatestRatio(s, n).Some?
            && var stored := LatestRatio(s, n).value;
               var found := RolledBack(RatioChanges(AfterRun(run, ab).rows), stored, requestAt);
               var strayed := RolledBack(RatioChanges(LaterRows(run, ab, k)), stored, requestAt);
               && (found == inForce <==> Returns(s.rows, n, stored, strayed, requestAt))
               && (NoLanding(LaterRows(run, ab, k), stored, requestAt) && NoCollision(s.rows, n, stored, requestAt) ==>
                     found == inForce)
  {
    hide Chained, OwnBack, NoCollision, RolledBack, RatioChanges, Returns, Detected;
    assert TimesAscend(run[..k]);
    OwnChangesTellHistory(run[..k], ab, n, requestAt);
    RowsInOrder(run, ab);
    RowsInOrder(run[..k], ab);
    RowsGrow(run, ab, k);
    var s, all, later := AfterRun(run[..k], ab), AfterRun(run, ab).rows, LaterRows(run, ab, k);
    assert all == s.rows + later;
    var stored := LatestRatio(s, n).value;
    var strayed := RolledBack(RatioChanges(later), stored, requestAt);
    RollConcat(s.rows, later, stored, requestAt);
    StrayedRollbackIff(s.rows, n, stored, strayed, requestAt);
    if NoLanding(later, stored, requestAt) && NoCollision(s.rows, n, stored, requestAt) {
      NoLandingKeeps(later, stored, requestAt);
      RollbackInvertsHistory(s.rows, n, stored, requestAt);
    }
  }
}
