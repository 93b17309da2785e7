/** Repeated detection of one monitored site: each success is compared with the latest success and the
    differences are logged; failures only count. */
module SiteDetection {

  import opened Options
  import opened ChangeLog

  type Time = int

  /** Rows of the login-enhanced groups share the table; their messages carry a prefix. */
  datatype Stream = PublicGroups | LoginGroups

  datatype Row = Row(stream: Stream, change: Change, at: Time)

  datatype Health = Unknown | Healthy | Warning | Failing

  /** The site's latest success snapshot, its current login groups (empty when NULL), its rows of the
      `changes` table and its failure counter. */
  datatype Site = Site(latest: Option<Groups>, login: Groups, rows: seq<Row>, failures: nat, health: Health)

  const NEW_SITE := Site(None, map[], [], 0, Unknown)

  /** The authenticated groups are read only for some NewAPI sites. */
  datatype LoginReply = NotAsked | Unreadable | LoginRead(groups: Groups)

  datatype Detection = CollectFailed | Collected(groups: Groups, login: LoginReply)

  function RowsOf(stream: Stream, cs: seq<Change>, at: Time): seq<Row> {
    if cs == [] then [] else RowsOf(stream, cs[..|cs| - 1], at) + [Row(stream, cs[|cs| - 1], at)]
  }

  function PublicChanges(s: Site, groups: Groups, ab: Alphabet): seq<Change> {
    if s.latest.Some? then Diff(s.latest.value, groups, ab) else []
  }

  /** Nothing is recorded while the stored login groups are empty. */
  function LoginChanges(s: Site, login: LoginReply, ab: Alphabet): seq<Change> {
    if login.LoginRead? && s.login != map[] then Diff(s.login, login.groups, ab) else []
  }

  /** `detect_site` */
  function Detected(s: Site, d: Detection, at: Time, ab: Alphabet): Site {
    match d
    case CollectFailed =>
      s.(failures := s.failures + 1, health := if s.failures + 1 >= 3 then Failing else Warning)
    case Collected(groups, login) =>
      Site(Some(groups),
           if login.LoginRead? then login.groups else s.login,
           s.rows + RowsOf(PublicGroups, PublicChanges(s, groups, ab), at)
             + RowsOf(LoginGroups, LoginChanges(s, login, ab), at),
           0,
           if login.Unreadable? then Warning else Healthy)
  }

  class MonitoredSite {
    var latest: Option<Groups>
    var login: Groups
    var rows: seq<Row>
    var failures: nat
    var health: Health

    function Contents(): Site
      reads this
    {
      Site(latest, login, rows, failures, health)
    }

    method Record(stream: Stream, changes: seq<Change>, at: Time)
      modifies `rows
      ensures rows == old(rows) + RowsOf(stream, changes, at)
    {
      for i := 0 to |changes|
        invariant rows == old(rows) + RowsOf(stream, changes[..i], at)
      {
        assert changes[..i + 1][..i] == changes[..i];
        rows := rows + [Row(stream, changes[i], at)];
      }
      assert changes[..|changes|] == changes;
    }

    method DetectSite(d: Detection, at: Time, ab: Alphabet)
      modifies this
      ensures Contents() == Detected(old(Contents()), d, at, ab)
    {
      if d.CollectFailed? {
        failures := failures + 1;
        health := if failures >= 3 then Failing else Warning;
        return;
      }
      var changes: seq<Change> := [];
      if latest.Some? {
        changes := DiffGroups(latest.value, d.groups, ab);
      }
      latest := Some(d.groups);
      var loginChanges: seq<Change> := [];
      if d.login.LoginRead? {
        if login != map[] {
          loginChanges := DiffGroups(login, d.login.groups, ab);
        }
        login := d.login.groups;
      }
      Record(PublicGroups, changes, at);
      Record(LoginGroups, loginChanges, at);
      failures := 0;
      health := if d.login.Unreadable? then Warning else Healthy;
    }
  }

  // ---------------------------------------------------------------------------------------
  // Replaying the log
  // ---------------------------------------------------------------------------------------

  /** The changes of one stream, oldest first. */
  function ChangesOf(stream: Stream, rows: seq<Row>): seq<Change> {
    if rows == [] then []
    else
      ChangesOf(stream, rows[..|rows| - 1]) +
      (if rows[|rows| - 1].stream == stream then [rows[|rows| - 1].change] else [])
  }

  lemma {:induction false} ChangesOfConcat(stream: Stream, a: seq<Row>, b: seq<Row>)
    ensures ChangesOf(stream, a + b) == ChangesOf(stream, a) + ChangesOf(stream, b)
  {
    if b == [] {
      assert a + b == a;
    } else {
      ChangesOfConcat(stream, a, b[..|b| - 1]);
      assert (a + b)[..|a + b| - 1] == a + b[..|b| - 1];
    }
  }

  lemma {:induction false} ChangesOfRows(stream: Stream, own: Stream, cs: seq<Change>, at: Time)
    ensures ChangesOf(stream, RowsOf(own, cs, at)) == if stream == own then cs else []
  {
    if cs != [] {
      ChangesOfRows(stream, own, cs[..|cs| - 1], at);
      var rows := RowsOf(own, cs, at);
      assert rows[..|rows| - 1] == RowsOf(own, cs[..|cs| - 1], at);
      assert cs == cs[..|cs| - 1] + [cs[|cs| - 1]];
    }
  }

  lemma ChangesAfter(s: Site, d: Detection, at: Time, ab: Alphabet)
    requires d.Collected?
    ensures var r := Detected(s, d, at, ab);
            && ChangesOf(PublicGroups, r.rows) == ChangesOf(PublicGroups, s.rows) + PublicChanges(s, d.groups, ab)
            && ChangesOf(LoginGroups, r.rows) == ChangesOf(LoginGroups, s.rows) + LoginChanges(s, d.login, ab)
  {
    hide PublicChanges, LoginChanges;
    var public := RowsOf(PublicGroups, PublicChanges(s, d.groups, ab), at);
    var login := RowsOf(LoginGroups, LoginChanges(s, d.login, ab), at);
    forall stream ensures ChangesOf(stream, s.rows + public + login)
      == ChangesOf(stream, s.rows) + ChangesOf(stream, public) + ChangesOf(stream, login)
    {
      ChangesOfConcat(stream, s.rows + public, login);
      ChangesOfConcat(stream, s.rows, public);
    }
    ChangesOfRows(PublicGroups, PublicGroups, PublicChanges(s, d.groups, ab), at);
    ChangesOfRows(LoginGroups, PublicGroups, PublicChanges(s, d.groups, ab), at);
    ChangesOfRows(PublicGroups, LoginGroups, LoginChanges(s, d.login, ab), at);
    ChangesOfRows(LoginGroups, LoginGroups, LoginChanges(s, d.login, ab), at);
  }

  type Run = seq<(Detection, Time)>

  function AfterRun(run: Run, ab: Alphabet): Site {
    if run == [] then NEW_SITE
    else Detected(AfterRun(run[..|run| - 1], ab), run[|run| - 1].0, run[|run| - 1].1, ab)
  }

  /** The first success snapshot of a run. */
  function FirstOf(run: Run): Option<Groups> {
    if run == [] then None
    else
      var first := FirstOf(run[..|run| - 1]);
      if first.Some? then first
      else if run[|run| - 1].0.Collected? then Some(run[|run| - 1].0.groups)
      else None
  }

  ghost predicate InAlphabet(ab: Alphabet, run: Run) {
    Distinct(ab.names) && forall k :: 0 <= k < |run| && run[k].0.Collected? ==> Covers(ab, run[k].0.groups)
  }

  /** The replay so far of the run's public rows from its first success snapshot. */
  function Replayed(run: Run, ab: Alphabet): Option<Groups> {
    var first := FirstOf(run);
    if first.Some? then Some(Replay(first.value, ChangesOf(PublicGroups, AfterRun(run, ab).rows))) else None
  }

  lemma {:induction false} NothingBeforeFirst(run: Run, ab: Alphabet)
    ensures FirstOf(run).None? ==> AfterRun(run, ab).latest.None? && ChangesOf(PublicGroups, AfterRun(run, ab).rows) == []
    ensures FirstOf(run).Some? ==> AfterRun(run, ab).latest.Some?
  {
    if run != [] {
      NothingBeforeFirst(run[..|run| - 1], ab);
      var mid, last := AfterRun(run[..|run| - 1], ab), run[|run| - 1];
      if last.0.Collected? {
        ChangesAfter(mid, last.0, last.1, ab);
      }
    }
  }

  lemma {:induction false} LatestIsCovered(run: Run, ab: Alphabet)
    requires InAlphabet(ab, run)
    ensures AfterRun(run, ab).latest.Some? ==> Covers(ab, AfterRun(run, ab).latest.value)
  {
    if run != [] {
      LatestIsCovered(run[..|run| - 1], ab);
    }
  }

  /** One success carries the replay on. */
  lemma ReplayStep(run: Run, ab: Alphabet)
    requires run != [] && run[|run| - 1].0.Collected? && FirstOf(run[..|run| - 1]).Some?
    ensures var n := |run| - 1;
            var mid := AfterRun(run[..n], ab);
            && mid.latest.Some?
            && Replayed(run, ab).Some? && Replayed(run[..n], ab).Some?
            && Replayed(run, ab).value
                 == Replay(Replayed(run[..n], ab).value, Diff(mid.latest.value, run[n].0.groups, ab))
  {
    hide Diff;
    var n := |run| - 1;
    var mid := AfterRun(run[..n], ab);
    NothingBeforeFirst(run[..n], ab);
    ChangesAfter(mid, run[n].0, run[n].1, ab);
    ReplayConcat(FirstOf(run).value, ChangesOf(PublicGroups, mid.rows), PublicChanges(mid, run[n].0.groups, ab));
  }

  /** Replaying the public rows of any run of successful and failed detections from the first success
      snapshot gives the latest one, on the group names and the seven tracked fields. */
  lemma {:induction false} LogReplays(run: Run, ab: Alphabet)
    requires InAlphabet(ab, run) && FirstOf(run).Some?
    ensures AfterRun(run, ab).latest.Some?
    ensures SameView(Replayed(run, ab).value, AfterRun(run, ab).latest.value)
  {
    hide Replay, Diff;
    var n := |run| - 1;
    NothingBeforeFirst(run[..n], ab);
    if FirstOf(run[..n]).Some? {
      LogReplays(run[..n], ab);
      if run[n].0.Collected? {
        ReplayStep(run, ab);
        LatestIsCovered(run[..n], ab);
        DiffReplays(AfterRun(run[..n], ab).latest.value, run[n].0.groups, ab, Replayed(run[..n], ab).value);
      }
    } else {
      FirstReplay(run, ab);
    }
  }

  lemma FirstReplay(run: Run, ab: Alphabet)
    requires run != [] && FirstOf(run).Some? && FirstOf(run[..|run| - 1]).None?
    ensures AfterRun(run, ab).latest == Replayed(run, ab) == FirstOf(run)
  {
    var n := |run| - 1;
    NothingBeforeFirst(run[..n], ab);
    ChangesAfter(AfterRun(run[..n], ab), run[n].0, run[n].1, ab);
  }

  ghost predicate ListsModels(g: Groups) {
    forall n :: n in g ==> g[n].models.Some?
  }

  ghost predicate AlwaysListsModels(run: Run) {
    forall k :: 0 <= k < |run| && run[k].0.Collected? ==> ListsModels(run[k].0.groups)
  }

  lemma {:induction false} LatestListsModels(run: Run, ab: Alphabet)
    requires AlwaysListsModels(run)
    ensures AfterRun(run, ab).latest.Some? ==> ListsModels(AfterRun(run, ab).latest.value)
  {
    if run != [] {
      LatestListsModels(run[..|run| - 1], ab);
    }
  }

  /** Replaying a difference gives the newer snapshot as a whole, exactly if no group gains or loses
      its list of models. */
  lemma DiffReplaysExactlyIff(was: Groups, now: Groups, ab: Alphabet)
    requires AlphabetOk(ab, was, now)
    ensures Replay(was, Diff(was, now, ab)) == now <==>
      (forall n :: n in was && n in now ==> was[n].models.Some? == now[n].models.Some?)
  {
    hide Replay, Diff;
    var r := Replay(was, Diff(was, now, ab));
    DiffReplays(was, now, ab, was);
    forall n | n in now
      ensures r[n].models == now[n].models <==> (n in was ==> was[n].models.Some? == now[n].models.Some?)
    {
      DiffReplaysModelsIff(was, now, ab, n);
    }
    if forall n :: n in was && n in now ==> was[n].models.Some? == now[n].models.Some? {
      forall n | n in now ensures r[n] == now[n] {
        assert r[n].values == now[n].values;
      }
    }
  }

  /** Where every snapshot lists the models of every group, the replay gives the latest snapshot
      exactly, models included. */
  lemma {:induction false} LogReplaysExactly(run: Run, ab: Alphabet)
    requires InAlphabet(ab, run) && FirstOf(run).Some? && AlwaysListsModels(run)
    ensures AfterRun(run, ab).latest == Replayed(run, ab)
  {
    hide Replay, Diff;
    var n := |run| - 1;
    NothingBeforeFirst(run[..n], ab);
    if FirstOf(run[..n]).Some? {
      LogReplaysExactly(run[..n], ab);
      if run[n].0.Collected? {
        ReplayStep(run, ab);
        LatestIsCovered(run[..n], ab);
        LatestListsModels(run[..n], ab);
        DiffReplaysExactlyIff(AfterRun(run[..n], ab).latest.value, run[n].0.groups, ab);
      }
    } else {
      FirstReplay(run, ab);
    }
  }

  /** The login stream has a hole: the changes one detection records lead from the stored login groups
      to the new ones exactly if something was stored or nothing is new. */
  lemma LoginRowsReplayIff(s: Site, d: Detection, ab: Alphabet)
    requires d.Collected? && d.login.LoginRead? && AlphabetOk(ab, s.login, d.login.groups)
    ensures SameView(Replay(s.login, LoginChanges(s, d.login, ab)), d.login.groups) <==>
      s.login != map[] || d.login.groups == map[]
  {
    if s.login != map[] {
      DiffReplays(s.login, d.login.groups, ab, s.login);
    } else {
      assert Replay(s.login, []) == map[];
      if d.login.groups != map[] {
        var n :| n in d.login.groups;
      }
    }
  }
}
