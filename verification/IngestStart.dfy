/** The first rounds of a main site's ingest: as long as there is no cursor a round takes one page, and the
    first page that has a log sets the cursor. */
module IngestStart {

  import opened Options
  import opened Paging
  import opened Ingest

  const NO_LEDGER := Ledger([], 0)

  /** Page 0 can be read, and something is on it. */
  predicate Readable(u: PagedLog, stopBefore: nat) {
    0 < u.MaxPages() && 0 < stopBefore && !u.fetches[0].fails && u.Page(0) != []
  }

  /** Without a cursor a pull takes all of page 0 and no more. */
  lemma FirstPullTakesPage(u: PagedLog, stopBefore: nat)
    requires Readable(u, stopBefore)
    ensures var r := Pulled(u, 0, stopBefore);
            && r.ending.Reached? && r.pages == 1
            && forall log :: log in r.collected <==> log in u.Page(0) && LogId(log) > 0
  {
    var r := Pulled(u, 0, stopBefore);
    assert r.collected == [] + Above(u.Page(0), 0);
    assert [] + Above(u.Page(0), 0) == Above(u.Page(0), 0);
    forall log ensures log in r.collected <==> log in u.Page(0) && LogId(log) > 0 {
      AboveIff(u.Page(0), 0, log);
    }
  }

  /** The cursor moves exactly if page 0 could be read and has a log with an id; otherwise the round
      leaves everything as it was. */
  lemma FirstRoundMovesIff(rows: seq<Row>, u: PagedLog, stopBefore: nat)
    ensures var after := AfterRound(Ledger(rows, 0), u, stopBefore);
            && (after.cursor > 0 <==> Readable(u, stopBefore) && exists log :: log in u.Page(0) && LogId(log) > 0)
            && (after.cursor == 0 ==> after == Ledger(rows, 0))
  {
    var r := Pulled(u, 0, stopBefore);
    MaxIdIsMax(r.collected);
    if Readable(u, stopBefore) {
      FirstPullTakesPage(u, stopBefore);
      hide Pulled;
      if log :| log in u.Page(0) && LogId(log) > 0 {
        assert log in r.collected;
      }
      if r.collected != [] {
        assert r.collected[0] in r.collected;
      }
    } else {
      assert r.collected == [];
    }
  }

  lemma {:induction false} IdleRounds(all: seq<Log>, run: seq<Service>)
    requires AfterRun(NO_LEDGER, all, run).cursor == 0
    ensures AfterRun(NO_LEDGER, all, run) == NO_LEDGER
  {
    hide AfterRound;
    if run != [] {
      var n := |run| - 1;
      var mid := AfterRun(NO_LEDGER, all, run[..n]);
      assert [run[n]][..0] == [];
      CursorOnlyGrows(mid, LogOf(all, run[n]), run[n].stopBefore);
      IdleRounds(all, run[..n]);
      FirstRoundMovesIff([], LogOf(all, run[n]), run[n].stopBefore);
    }
  }

  lemma CursorOnlyGrows(l: Ledger, u: PagedLog, stopBefore: nat)
    ensures l.cursor <= AfterRound(l, u, stopBefore).cursor
  {
  }

  /** The ids below the first page. */
  function FirstFloor(u: PagedLog): nat
    requires 0 < u.MaxPages() && u.Page(0) != []
  {
    if MinId(u.Page(0)) > 0 then MinId(u.Page(0)) - 1 else 0
  }

  lemma OnFirstPage(u: PagedLog, i: nat, newest: Log)
    requires u.Grows() && IdsDescend(u.all) && 0 < u.MaxPages() && u.Page(0) != [] && newest in u.Page(0)
    requires i < |u.all| && FirstFloor(u) < LogId(u.all[i]) <= LogId(newest)
    ensures u.all[i] in u.Page(0)
  {
    var page, s := u.Page(0), u.Start(0);
    var j :| 0 <= j < |page| && page[j] == newest;
    var k :| 0 <= k < |page| && LogId(page[k]) == MinId(page);
    assert u.all[s + j] == newest && u.all[s + k] == page[k];
    assert s + j <= i <= s + k;
    assert page[i - s] == u.all[i];
  }

  lemma FirstCursor(u: PagedLog, collected: seq<Log>, cursor: nat)
    requires 0 < u.MaxPages() && cursor == MaxId(collected)
    requires forall log :: log in collected <==> log in u.Page(0) && LogId(log) > 0
    ensures forall log :: log in u.Page(0) ==> LogId(log) <= cursor
    ensures cursor > 0 ==> exists log :: log in u.Page(0) && LogId(log) == cursor
    ensures collected != [] ==> exists i :: 0 <= i < |collected| && LogId(collected[i]) == cursor
  {
    MaxIdIsMax(collected);
    forall log | log in u.Page(0) ensures LogId(log) <= cursor {
      if LogId(log) > 0 {
        var i :| 0 <= i < |collected| && collected[i] == log;
      }
    }
    if cursor > 0 {
      var i :| 0 <= i < |collected| && LogId(collected[i]) == cursor;
      assert collected[i] in collected;
    }
  }

  /** After the first page the cursor is its greatest id, and each of its timestamped logs has exactly one
      row, which shows it. */
  lemma FirstRoundFills(u: PagedLog, stopBefore: nat)
    requires u.Grows() && IdsDescend(u.all) && Readable(u, stopBefore)
    ensures var after := AfterRound(NO_LEDGER, u, stopBefore);
            && LedgerOk(u.all, FirstFloor(u), after) && OneRowEach(u.all, FirstFloor(u), after)
            && (forall log :: log in u.Page(0) ==> LogId(log) <= after.cursor)
            && (after.cursor > 0 ==> exists log :: log in u.Page(0) && LogId(log) == after.cursor)
  {
    var collected := Pulled(u, 0, stopBefore).collected;
    FirstPullTakesPage(u, stopBefore);
    var after := AfterRound(NO_LEDGER, u, stopBefore);
    hide Pulled, InsertedAll, MaxId, FirstFloor, IdsDescend, LedgerOk, OneRowEach;
    assert after == Ledger(InsertedAll([], collected), MaxId(collected));
    FirstCursor(u, collected, after.cursor);
    FirstLedgerOk(u, collected, after);
    LedgerShows(u.all, FirstFloor(u), after);
  }

  lemma PageInHistory(u: PagedLog, log: Log)
    requires 0 < u.MaxPages() && log in u.Page(0)
    ensures log in u.all
  {
    var j :| 0 <= j < |u.Page(0)| && u.Page(0)[j] == log;
    assert u.all[u.Start(0) + j] == log;
  }

  lemma FirstLedgerOk(u: PagedLog, collected: seq<Log>, after: Ledger)
    requires u.Grows() && IdsDescend(u.all) && 0 < u.MaxPages() && u.Page(0) != []
    requires forall log :: log in collected <==> log in u.Page(0) && LogId(log) > 0
    requires after == Ledger(InsertedAll([], collected), MaxId(collected))
    requires collected != [] ==> exists i :: 0 <= i < |collected| && LogId(collected[i]) == MaxId(collected)
    ensures LedgerOk(u.all, FirstFloor(u), after)
  {
    var floor := FirstFloor(u);
    forall i | 0 <= i < |collected| ensures collected[i] in u.all {
      assert collected[i] in collected;
      PageInHistory(u, collected[i]);
    }
    hide InsertedAll, IdsDescend;
    InsertKeepsUnique([], collected);
    InsertKeepsGenuine(u.all, floor, [], collected);
    forall i | 0 <= i < |u.all| && Usable(u.all[i]) && floor < LogId(u.all[i]) <= after.cursor
      ensures RowOf(u.all[i]) in after.rows
    {
      FirstRowIn(u, collected, i);
    }
    FloorBelow(u, collected);
  }

  lemma FirstRowIn(u: PagedLog, collected: seq<Log>, i: nat)
    requires u.Grows() && IdsDescend(u.all) && 0 < u.MaxPages() && u.Page(0) != []
    requires forall log :: log in collected <==> log in u.Page(0) && LogId(log) > 0
    requires forall k :: 0 <= k < |collected| ==> collected[k] in u.all
    requires collected != [] ==> exists k :: 0 <= k < |collected| && LogId(collected[k]) == MaxId(collected)
    requires i < |u.all| && Usable(u.all[i]) && FirstFloor(u) < LogId(u.all[i]) <= MaxId(collected)
    ensures RowOf(u.all[i]) in InsertedAll([], collected)
  {
    hide InsertedAll, RowOf;
    if collected != [] {
      var k :| 0 <= k < |collected| && LogId(collected[k]) == MaxId(collected);
      assert collected[k] in collected;
      OnFirstPage(u, i, collected[k]);
      InsertFills(u.all, FirstFloor(u), [], collected, u.all[i]);
    }
  }

  lemma FloorBelow(u: PagedLog, collected: seq<Log>)
    requires 0 < u.MaxPages() && u.Page(0) != []
    requires forall log :: log in collected <==> log in u.Page(0) && LogId(log) > 0
    ensures FirstFloor(u) <= MaxId(collected)
  {
    MaxIdIsMax(collected);
    if MinId(u.Page(0)) > 0 {
      var k :| 0 <= k < |u.Page(0)| && LogId(u.Page(0)[k]) == MinId(u.Page(0));
      assert u.Page(0)[k] in collected;
    }
  }

  lemma {:induction false} AfterRunConcat(l: Ledger, all: seq<Log>, a: seq<Service>, b: seq<Service>)
    ensures AfterRun(l, all, a + b) == AfterRun(AfterRun(l, all, a), all, b)
  {
    hide AfterRound;
    if b == [] {
      assert a + b == a;
    } else {
      AfterRunConcat(l, all, a, b[..|b| - 1]);
      assert (a + b)[..|a + b| - 1] == a + b[..|b| - 1];
    }
  }

  /** From the very first round on: after any rounds that found nothing, one that reads a page with a log,
      and then any run of pulls that fail or end at the cursor or at the end of the log, every timestamped
      log from that page on has exactly one row, which shows it. */
  lemma ExactlyOnceFromStart(all: seq<Log>, before: seq<Service>, first: Service, rest: seq<Service>)
    requires IdsDescend(all) && AfterRun(NO_LEDGER, all, before).cursor == 0
    requires var u := LogOf(all, first); u.Grows() && Readable(u, first.stopBefore)
    requires AfterRound(NO_LEDGER, LogOf(all, first), first.stopBefore).cursor > 0
    requires GoodRun(AfterRound(NO_LEDGER, LogOf(all, first), first.stopBefore), all, rest)
    ensures OneRowEach(all, FirstFloor(LogOf(all, first)), AfterRun(NO_LEDGER, all, before + [first] + rest))
  {
    var u := LogOf(all, first);
    IdleRounds(all, before);
    AfterRunConcat(NO_LEDGER, all, before, [first]);
    AfterRunConcat(NO_LEDGER, all, before + [first], rest);
    assert [first][..0] == [];
    assert AfterRun(NO_LEDGER, all, [first]) == AfterRound(AfterRun(NO_LEDGER, all, []), u, first.stopBefore);
    FirstRoundFills(u, first.stopBefore);
    hide AfterRound, OneRowEach, LedgerOk, GoodRun;
    RunKeepsLedger(FirstFloor(u), AfterRound(NO_LEDGER, u, first.stopBefore), all, rest);
    LedgerShows(all, FirstFloor(u), AfterRun(NO_LEDGER, all, before + [first] + rest));
  }
}
