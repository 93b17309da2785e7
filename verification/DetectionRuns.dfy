/** What any run of detections of a site comes to: its health, its stored snapshots, and every row of its
    change log. */
module DetectionRuns {

  import opened Options
  import opened ChangeLog
  import opened DiffMeaning
  import opened SiteDetection

  /** How many detections failed since the last success. */
  function FailuresInARow(run: Run): nat {
    if run == [] || run[|run| - 1].0.Collected? then 0 else 1 + FailuresInARow(run[..|run| - 1])
  }

  /** The site fails from the third failure in a row on; before that, and if the login groups could not be
      read, it is only in a warning state. */
  lemma {:induction false} HealthIs(run: Run, ab: Alphabet)
    ensures var s, n := AfterRun(run, ab), FailuresInARow(run);
            && s.failures == n
            && (s.health == Failing <==> n >= 3)
            && (s.health == Unknown <==> run == [])
            && (s.health == Warning <==>
                  1 <= n <= 2 || (n == 0 && run != [] && run[|run| - 1].0.login.Unreadable?))
  {
    if run != [] {
      HealthIs(run[..|run| - 1], ab);
    }
  }

  /** The groups of the last success. */
  function LastGroups(run: Run): Option<Groups> {
    if run == [] then None
    else if run[|run| - 1].0.Collected? then Some(run[|run| - 1].0.groups)
    else LastGroups(run[..|run| - 1])
  }

  /** The login groups that were read last. */
  function LastLogin(run: Run): Groups {
    if run == [] then map[]
    else if run[|run| - 1].0.Collected? && run[|run| - 1].0.login.LoginRead? then run[|run| - 1].0.login.groups
    else LastLogin(run[..|run| - 1])
  }

  lemma {:induction false} StoresLast(run: Run, ab: Alphabet)
    ensures AfterRun(run, ab).latest == LastGroups(run) && AfterRun(run, ab).login == LastLogin(run)
  {
    if run != [] { StoresLast(run[..|run| - 1], ab); }
  }

  ghost predicate AllNamesKnown(ab: Alphabet, run: Run) {
    && Distinct(ab.names)
    && forall k :: 0 <= k < |run| && run[k].0.Collected? ==>
         Covers(ab, run[k].0.groups) && (run[k].0.login.LoginRead? ==> Covers(ab, run[k].0.login.groups))
  }

  lemma {:induction false} StoredNamesKnown(ab: Alphabet, run: Run)
    requires AllNamesKnown(ab, run)
    ensures LastGroups(run).Some? ==> Covers(ab, LastGroups(run).value)
    ensures Covers(ab, LastLogin(run))
  {
    hide Covers;
    if run != [] {
      StoredNamesKnown(ab, run[..|run| - 1]);
    } else {
      NothingCovered(ab);
    }
  }

  lemma NothingCovered(ab: Alphabet)
    ensures Covers(ab, map[])
  {
  }

  /** Detection `k` of the run logged this row: it found the change between the groups of the last success
      before it, or the login groups read last if there were any, and what it read itself. */
  predicate LoggedBy(run: Run, k: nat, row: Row) {
    && k < |run| && run[k].0.Collected? && row.at == run[k].1
    && match row.stream
       case PublicGroups => LastGroups(run[..k]).Some? && Reports(LastGroups(run[..k]).value, run[k].0.groups, row.change)
       case LoginGroups =>
         run[k].0.login.LoginRead? && LastLogin(run[..k]) != map[]
         && Reports(LastLogin(run[..k]), run[k].0.login.groups, row.change)
  }

  lemma {:induction false} RowsOfIff(stream: Stream, cs: seq<Change>, at: Time, row: Row)
    ensures row in RowsOf(stream, cs, at) <==> row.stream == stream && row.at == at && row.change in cs
  {
    if cs != [] {
      RowsOfIff(stream, cs[..|cs| - 1], at, row);
      assert cs == cs[..|cs| - 1] + [cs[|cs| - 1]];
    }
  }

  lemma StepLogsIff(run: Run, ab: Alphabet, row: Row)
    requires run != [] && AllNamesKnown(ab, run)
    ensures var n := |run| - 1;
            row in AfterRun(run, ab).rows <==> row in AfterRun(run[..n], ab).rows || LoggedBy(run, n, row)
  {
    var n := |run| - 1;
    var mid, d := AfterRun(run[..n], ab), run[n].0;
    StoresLast(run[..n], ab);
    StoredNamesKnown(ab, run[..n]);
    hide Diff, Reports, RowsOf, Covers;
    if d.Collected? {
      RowsOfIff(PublicGroups, PublicChanges(mid, d.groups, ab), run[n].1, row);
      RowsOfIff(LoginGroups, LoginChanges(mid, d.login, ab), run[n].1, row);
      if mid.latest.Some? { DiffIff(mid.latest.value, d.groups, ab, row.change); }
      if d.login.LoginRead? && mid.login != map[] { DiffIff(mid.login, d.login.groups, ab, row.change); }
    }
  }

  lemma {:induction false} LoggedByPrefix(run: Run, n: nat, k: nat, row: Row)
    requires k < n <= |run|
    ensures LoggedBy(run[..n], k, row) <==> LoggedBy(run, k, row)
  {
    assert run[..n][..k] == run[..k];
  }

  /** A row is in the log of a run exactly if some detection logged it: every row is so, and nothing that
      changed between two successes is missing. */
  lemma {:induction false} LoggedIff(run: Run, ab: Alphabet, row: Row)
    requires AllNamesKnown(ab, run)
    ensures row in AfterRun(run, ab).rows <==> exists k: nat :: LoggedBy(run, k, row)
  {
    hide LoggedBy;
    if run != [] {
      var n := |run| - 1;
      LoggedIff(run[..n], ab, row);
      StepLogsIff(run, ab, row);
      forall k: nat | k < n ensures LoggedBy(run[..n], k, row) <==> LoggedBy(run, k, row) {
        LoggedByPrefix(run, n, k, row);
      }
      LoggedWithin(run[..n], row);
      LoggedWithin(run, row);
    } else {
      LoggedWithin(run, row);
    }
  }

  lemma LoggedWithin(run: Run, row: Row)
    ensures forall k: nat :: LoggedBy(run, k, row) ==> k < |run|
  {
  }
}
