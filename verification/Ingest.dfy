/** Cursor ingest of a main site's consumption log: each round pulls pages from the newest log back
    to the cursor and inserts one check row per log. */
module Ingest {

  import opened Options
  import opened Paging

  /** `int(log.get("id") or 0)` */
  function LogId(log: Log): nat {
    if log.id.Some? then log.id.value else 0
  }

  datatype Ending = Reached | Empty | Capped | Stopped | Failed

  /** `last` counts the pages that were read. */
  datatype Pull = Pull(collected: seq<Log>, ending: Ending, pages: nat)

  function MinId(logs: seq<Log>): (r: nat)
    requires logs != []
    ensures exists i :: 0 <= i < |logs| && LogId(logs[i]) == r
    ensures forall i :: 0 <= i < |logs| ==> r <= LogId(logs[i])
  {
    var n := |logs| - 1;
    if n == 0 then
      LogId(logs[0])
    else
      var m := MinId(logs[..n]);
      assert logs[..n][..] == logs[..n];
      if LogId(logs[n]) < m then LogId(logs[n]) else m
  }

  /** The logs of one page above the cursor. */
  function Above(logs: seq<Log>, cursor: nat): seq<Log> {
    if logs == [] then []
    else
      var n := |logs| - 1;
      if LogId(logs[n]) > cursor then Above(logs[..n], cursor) + [logs[n]] else Above(logs[..n], cursor)
  }

  /** `_pullNewMainLogs` from a page on; `stopBefore` is the first page in front of which the stop
      event is found set. */
  function PulledFrom(u: PagedLog, cursor: nat, stopBefore: nat, page: nat, collected: seq<Log>): Pull
    decreases u.MaxPages() - page
  {
    if page >= u.MaxPages() then Pull(collected, Capped, page)
    else if page >= stopBefore then Pull(collected, Stopped, page)
    else if u.fetches[page].fails then Pull(collected, Failed, page)
    else
      var logs := u.Page(page);
      if logs == [] then Pull(collected, Empty, page)
      else
        var more := if cursor > 0 || page == 0 then collected + Above(logs, cursor) else collected;
        if cursor == 0 || MinId(logs) <= cursor then Pull(more, Reached, page + 1)
        else PulledFrom(u, cursor, stopBefore, page + 1, more)
  }

  function Pulled(u: PagedLog, cursor: nat, stopBefore: nat): Pull {
    PulledFrom(u, cursor, stopBefore, 0, [])
  }

  method MinIdOf(logs: seq<Log>) returns (r: nat)
    requires logs != []
    ensures r == MinId(logs)
  {
    r := LogId(logs[0]);
    assert logs[..1] == [logs[0]];
    for i := 1 to |logs|
      invariant r == MinId(logs[..i])
    {
      assert logs[..i + 1][..i] == logs[..i];
      if LogId(logs[i]) < r {
        r := LogId(logs[i]);
      }
    }
    assert logs[..|logs|] == logs;
  }

  method Collect(logs: seq<Log>, cursor: nat, collected: seq<Log>) returns (r: seq<Log>)
    ensures r == collected + Above(logs, cursor)
  {
    r := collected;
    for i := 0 to |logs|
      invariant r == collected + Above(logs[..i], cursor)
    {
      assert logs[..i + 1][..i] == logs[..i];
      if LogId(logs[i]) > cursor {
        r := r + [logs[i]];
      }
    }
    assert logs[..|logs|] == logs;
  }

  method PullNewMainLogs(u: PagedLog, cursor: nat, stopBefore: nat) returns (r: Pull)
    ensures r == Pulled(u, cursor, stopBefore)
  {
    hide MinId, Above;
    var collected: seq<Log> := [];
    var firstRun := cursor == 0;
    var page := 0;
    while page < u.MaxPages()
      invariant PulledFrom(u, cursor, stopBefore, page, collected) == Pulled(u, cursor, stopBefore)
    {
      if page >= stopBefore {
        return Pull(collected, Stopped, page);
      }
      if u.fetches[page].fails {
        return Pull(collected, Failed, page);
      }
      var logs := u.Page(page);
      if logs == [] {
        return Pull(collected, Empty, page);
      }
      var pageMinId := MinIdOf(logs);
      if !firstRun || page == 0 {
        collected := Collect(logs, cursor, collected);
      }
      if firstRun || pageMinId <= cursor {
        return Pull(collected, Reached, page + 1);
      }
      page := page + 1;
    }
    return Pull(collected, Capped, page);
  }

  // ---------------------------------------------------------------------------------------
  // The check rows
  // ---------------------------------------------------------------------------------------

  /** The columns of billing_request_checks an insert fills from the log. */
  datatype Row = Row(
    mainLog: nat,
    requestAt: Time,
    modelName: string,
    promptTokens: nat,
    completionTokens: nat,
    cacheRead: Option<nat>)

  predicate Usable(log: Log) {
    LogId(log) > 0 && log.created.Some?
  }

  function RowOf(log: Log): Row
    requires Usable(log)
  {
    Row(LogId(log), ToSecond(log.created.value), if log.modelName == "" then "unknown" else log.modelName,
        log.promptTokens, log.completionTokens, log.cacheRead)
  }

  predicate HasRow(rows: seq<Row>, id: nat) {
    exists k :: 0 <= k < |rows| && rows[k].mainLog == id
  }

  /** `insertBillingCheck`: the unique key (main site, log id) makes a second insert do nothing. */
  function Inserted(rows: seq<Row>, log: Log): seq<Row> {
    if Usable(log) && !HasRow(rows, LogId(log)) then rows + [RowOf(log)] else rows
  }

  function InsertedAll(rows: seq<Row>, logs: seq<Log>): seq<Row> {
    if logs == [] then rows else Inserted(InsertedAll(rows, logs[..|logs| - 1]), logs[|logs| - 1])
  }

  function MaxId(logs: seq<Log>): nat {
    if logs == [] then 0
    else
      var m := MaxId(logs[..|logs| - 1]);
      if LogId(logs[|logs| - 1]) < m then m else LogId(logs[|logs| - 1])
  }

  datatype Ledger = Ledger(rows: seq<Row>, cursor: nat)

  /** The ingest part of `_runForAdminSite`. */
  function AfterRound(l: Ledger, u: PagedLog, stopBefore: nat): Ledger {
    var pull := Pulled(u, l.cursor, stopBefore);
    if pull.ending == Failed then l
    else
      Ledger(InsertedAll(l.rows, pull.collected),
             if MaxId(pull.collected) > l.cursor then MaxId(pull.collected) else l.cursor)
  }

  class MainSite {
    var rows: seq<Row>
    var cursor: nat

    function Contents(): Ledger
      reads this
    {
      Ledger(rows, cursor)
    }

    method InsertBillingCheck(log: Log) returns (inserted: bool)
      requires Usable(log)
      modifies `rows
      ensures rows == Inserted(old(rows), log)
      ensures inserted <==> rows != old(rows)
    {
      for i := 0 to |rows|
        invariant forall k :: 0 <= k < i ==> rows[k].mainLog != LogId(log)
      {
        if rows[i].mainLog == LogId(log) {
          return false;
        }
      }
      rows := rows + [RowOf(log)];
      return true;
    }

    method InsertAll(logs: seq<Log>) returns (inserted: nat)
      modifies `rows
      ensures rows == InsertedAll(old(rows), logs)
      ensures |rows| == |old(rows)| + inserted
    {
      inserted := 0;
      for i := 0 to |logs|
        invariant rows == InsertedAll(old(rows), logs[..i])
        invariant |rows| == |old(rows)| + inserted
      {
        assert logs[..i + 1][..i] == logs[..i];
        if LogId(logs[i]) == 0 {
          continue;
        }
        if logs[i].created.None? {
          continue;
        }
        var added := InsertBillingCheck(logs[i]);
        if added {
          inserted := inserted + 1;
        }
      }
      assert logs[..|logs|] == logs;
    }

    /** Returns the number of rows inserted, or nothing if a page could not be read. */
    method RunForAdminSite(u: PagedLog, stopBefore: nat) returns (inserted: Option<nat>)
      modifies this
      ensures Contents() == AfterRound(old(Contents()), u, stopBefore)
      ensures inserted.None? ==> Contents() == old(Contents())
      ensures inserted.Some? ==> |rows| == |old(rows)| + inserted.value
    {
      var pull := PullNewMainLogs(u, cursor, stopBefore);
      if pull.ending == Failed {
        return None;
      }
      var count := InsertAll(pull.collected);
      inserted := Some(count);
      if pull.collected != [] {
        var maxId := MaxIdOf(pull.collected);
        cursor := if maxId > cursor then maxId else cursor;
      }
    }
  }

  method MaxIdOf(logs: seq<Log>) returns (r: nat)
    ensures r == MaxId(logs)
  {
    r := 0;
    for i := 0 to |logs|
      invariant r == MaxId(logs[..i])
    {
      assert logs[..i + 1][..i] == logs[..i];
      if LogId(logs[i]) >= r {
        r := LogId(logs[i]);
      }
    }
    assert logs[..|logs|] == logs;
  }

  // ---------------------------------------------------------------------------------------
  // What a pull collects
  // ---------------------------------------------------------------------------------------

  /** The main site lists its log by descending id. */
  ghost predicate IdsDescend(all: seq<Log>) {
    forall i, j :: 0 <= i < j < |all| ==> LogId(all[j]) < LogId(all[i])
  }

  lemma {:induction false} AboveIff(logs: seq<Log>, cursor: nat, log: Log)
    ensures log in Above(logs, cursor) <==> log in logs && LogId(log) > cursor
  {
    if logs != [] {
      var n := |logs| - 1;
      AboveIff(logs[..n], cursor, log);
      assert logs == logs[..n] + [logs[n]];
    }
  }

  ghost predicate CollectedFrom(u: PagedLog, cursor: nat, n: nat, collected: seq<Log>) {
    forall log :: log in collected <==> LogId(log) > cursor && WasRead(u, n, log)
  }

  lemma OneMorePage(u: PagedLog, cursor: nat, n: nat, collected: seq<Log>)
    requires n < u.MaxPages() && !u.fetches[n].fails
    requires CollectedFrom(u, cursor, n, collected)
    ensures CollectedFrom(u, cursor, n + 1, collected + Above(u.Page(n), cursor))
  {
    var more := collected + Above(u.Page(n), cursor);
    forall log ensures log in more <==> LogId(log) > cursor && WasRead(u, n + 1, log) {
      AboveIff(u.Page(n), cursor, log);
      if WasRead(u, n, log) {
        var p :| 0 <= p < n && OnPage(u, p, log);
        assert 0 <= p < n + 1;
      }
      if log in u.Page(n) {
        assert OnPage(u, n, log);
      }
    }
  }

  /** The pages before `n` arrived. */
  ghost predicate Arrived(u: PagedLog, n: nat) {
    n <= u.MaxPages() && forall p :: 0 <= p < n ==> !u.fetches[p].fails
  }

  lemma ArrivedOneMore(u: PagedLog, n: nat)
    requires Arrived(u, n) && n < u.MaxPages() && !u.fetches[n].fails
    ensures Arrived(u, n + 1)
  {
  }

  /** A pull collects exactly the logs above the cursor on the pages it read. */
  lemma {:induction false} PullCollects(u: PagedLog, cursor: nat, stopBefore: nat, page: nat, collected: seq<Log>)
    requires cursor > 0 && Arrived(u, page) && CollectedFrom(u, cursor, page, collected)
    ensures var r := PulledFrom(u, cursor, stopBefore, page, collected);
            page <= r.pages && Arrived(u, r.pages) && CollectedFrom(u, cursor, r.pages, r.collected)
    decreases u.MaxPages() - page
  {
    hide CollectedFrom, Arrived, Above, MinId;
    if page >= u.MaxPages() || page >= stopBefore || u.fetches[page].fails || u.Page(page) == [] {
    } else {
      OneMorePage(u, cursor, page, collected);
      ArrivedOneMore(u, page);
      if MinId(u.Page(page)) > cursor {
        PullCollects(u, cursor, stopBefore, page + 1, collected + Above(u.Page(page), cursor));
      }
    }
  }

  /** The page arrives and leads on to the next: it has only logs above the cursor, and there is one. */
  ghost predicate LeadsOn(u: PagedLog, cursor: nat, page: nat)
    requires page < u.MaxPages()
  {
    && cursor > 0 && !u.fetches[page].fails && u.Page(page) != []
    && forall log :: log in u.Page(page) ==> LogId(log) > cursor
  }

  lemma LeadsOnIff(u: PagedLog, cursor: nat, page: nat)
    requires page < u.MaxPages() && !u.fetches[page].fails && u.Page(page) != []
    ensures LeadsOn(u, cursor, page) <==> cursor > 0 && MinId(u.Page(page)) > cursor
  {
    var logs := u.Page(page);
    if LeadsOn(u, cursor, page) {
      var i :| 0 <= i < |logs| && LogId(logs[i]) == MinId(logs);
      assert logs[i] in logs;
    }
    if MinId(logs) > cursor {
      forall log | log in logs ensures LogId(log) > cursor {
        var i :| 0 <= i < |logs| && logs[i] == log;
      }
    }
  }

  lemma {:induction false} PullComesTo(u: PagedLog, cursor: nat, stopBefore: nat, start: nat, collected: seq<Log>,
                                       page: nat)
    returns (more: seq<Log>)
    requires start <= page <= u.MaxPages() && page <= stopBefore
    requires forall p :: start <= p < page ==> LeadsOn(u, cursor, p)
    ensures PulledFrom(u, cursor, stopBefore, start, collected) == PulledFrom(u, cursor, stopBefore, page, more)
    decreases page - start
  {
    more := collected;
    if start < page {
      assert LeadsOn(u, cursor, start);
      LeadsOnIff(u, cursor, start);
      more := PullComesTo(u, cursor, stopBefore, start + 1, collected + Above(u.Page(start), cursor), page);
    }
  }

  /** How a pull ends: at the first page that does not lead on, or at the cap or the stop in front of it. */
  lemma PullEndsAt(u: PagedLog, cursor: nat, stopBefore: nat, page: nat)
    requires page <= u.MaxPages() && page <= stopBefore && forall p :: 0 <= p < page ==> LeadsOn(u, cursor, p)
    requires page < u.MaxPages() && page < stopBefore ==> !LeadsOn(u, cursor, page)
    ensures var r := Pulled(u, cursor, stopBefore);
            && r.ending == (if page == u.MaxPages() then Capped
                            else if page == stopBefore then Stopped
                            else if u.fetches[page].fails then Failed
                            else if u.Page(page) == [] then Empty
                            else Reached)
            && r.pages == if r.ending.Reached? then page + 1 else page
  {
    var collected := PullComesTo(u, cursor, stopBefore, 0, [], page);
    if page < u.MaxPages() && page < stopBefore && !u.fetches[page].fails && u.Page(page) != [] {
      LeadsOnIff(u, cursor, page);
    }
  }

  /** A round that comes to a page that cannot be read changes nothing: neither rows nor cursor. */
  lemma FailedPageChangesNothing(l: Ledger, u: PagedLog, stopBefore: nat, page: nat)
    requires page < u.MaxPages() && page < stopBefore && u.fetches[page].fails
    requires forall p :: 0 <= p < page ==> LeadsOn(u, l.cursor, p)
    ensures AfterRound(l, u, stopBefore) == l
  {
    PullEndsAt(u, l.cursor, stopBefore, page);
  }

  function LastEnd(u: PagedLog, n: nat): nat
    requires 0 < n <= u.MaxPages()
  {
    u.Cut(u.Start(n - 1) + u.pageSize)
  }

  /** The pages read leave no gap: what lies behind the start of one of them and in front of the end
      of the last is on one of them, although a page may start anywhere in front of the one before. */
  lemma {:induction false} PagesCover(u: PagedLog, n: nat, k: nat, i: nat)
    requires u.Grows() && Arrived(u, n)
    requires k < n && u.Start(k) <= i < LastEnd(u, n)
    ensures WasRead(u, n, u.all[i])
  {
    var s := u.Start(n - 1);
    if s <= i {
      assert u.Page(n - 1)[i - s] == u.all[i];
      assert OnPage(u, n - 1, u.all[i]);
    } else {
      NoGap(u, n - 1);
      PagesCover(u, n - 1, k, i);
      var p :| 0 <= p < n - 1 && OnPage(u, p, u.all[i]);
    }
  }

  lemma ReadBehindSomeStart(u: PagedLog, n: nat, i: nat)
    requires IdsDescend(u.all) && n <= u.MaxPages() && i < |u.all|
    requires WasRead(u, n, u.all[i])
    ensures exists k :: 0 <= k < n && u.Start(k) <= i
  {
    var p :| 0 <= p < n && OnPage(u, p, u.all[i]);
    var j :| 0 <= j < |u.Page(p)| && u.Page(p)[j] == u.all[i];
    assert u.all[u.Start(p) + j] == u.all[i];
  }

  /** Nothing between the cursor and the newest collected log was left out. */
  ghost predicate Gapless(u: PagedLog, cursor: nat, collected: seq<Log>) {
    forall i :: 0 <= i < |u.all| && cursor < LogId(u.all[i]) <= MaxId(collected) ==> u.all[i] in collected
  }

  /** Whatever lies behind the last page read and above the cursor had been read before. */
  ghost predicate NothingBehind(u: PagedLog, cursor: nat, n: nat)
    requires 0 < n <= u.MaxPages()
  {
    forall i :: LastEnd(u, n) <= i < |u.all| && LogId(u.all[i]) > cursor ==> WasRead(u, n, u.all[i])
  }

  lemma {:induction false} MaxIdIsMax(logs: seq<Log>)
    ensures forall i :: 0 <= i < |logs| ==> LogId(logs[i]) <= MaxId(logs)
    ensures logs != [] ==> exists i :: 0 <= i < |logs| && LogId(logs[i]) == MaxId(logs)
  {
    if logs != [] {
      var n := |logs| - 1;
      MaxIdIsMax(logs[..n]);
      forall i | 0 <= i < |logs| ensures LogId(logs[i]) <= MaxId(logs) {
        if i < n { assert logs[..n][i] == logs[i]; }
      }
      if n > 0 && LogId(logs[n]) < MaxId(logs[..n]) {
        var i :| 0 <= i < n && LogId(logs[..n][i]) == MaxId(logs[..n]);
        assert LogId(logs[i]) == MaxId(logs);
      } else {
        assert LogId(logs[n]) == MaxId(logs);
      }
    }
  }

  /** The newest collected log, as a place in the history. */
  lemma NewestCollected(u: PagedLog, cursor: nat, n: nat, collected: seq<Log>) returns (m: nat)
    requires Arrived(u, n) && CollectedFrom(u, cursor, n, collected) && collected != []
    ensures m < |u.all| && LogId(u.all[m]) == MaxId(collected) && WasRead(u, n, u.all[m])
  {
    hide MaxId, WasRead;
    MaxIdIsMax(collected);
    var i :| 0 <= i < |collected| && LogId(collected[i]) == MaxId(collected);
    assert collected[i] in collected;
    m := PlaceOf(u, n, collected[i]);
  }

  lemma BehindNewest(u: PagedLog, cursor: nat, n: nat, m: nat, k: nat, i: nat)
    requires u.Grows() && IdsDescend(u.all) && 0 < n && Arrived(u, n)
    requires NothingBehind(u, cursor, n) && m < |u.all| && k < n && u.Start(k) <= m
    requires i < |u.all| && cursor < LogId(u.all[i]) <= LogId(u.all[m])
    ensures WasRead(u, n, u.all[i])
  {
    assert m <= i;
    if i < LastEnd(u, n) {
      PagesCover(u, n, k, i);
    }
  }

  lemma GaplessIfNothingBehind(u: PagedLog, cursor: nat, n: nat, collected: seq<Log>)
    requires u.Grows() && IdsDescend(u.all) && 0 < n && Arrived(u, n)
    requires CollectedFrom(u, cursor, n, collected) && collected != [] && NothingBehind(u, cursor, n)
    ensures Gapless(u, cursor, collected)
  {
    var m := NewestCollected(u, cursor, n, collected);
    ReadBehindSomeStart(u, n, m);
    var k :| 0 <= k < n && u.Start(k) <= m;
    forall i | 0 <= i < |u.all| && cursor < LogId(u.all[i]) <= MaxId(collected) ensures u.all[i] in collected {
      BehindNewest(u, cursor, n, m, k, i);
    }
  }

  lemma NothingBehindIfGapless(u: PagedLog, cursor: nat, n: nat, collected: seq<Log>)
    requires u.Grows() && IdsDescend(u.all) && 0 < n && Arrived(u, n)
    requires CollectedFrom(u, cursor, n, collected) && collected != [] && Gapless(u, cursor, collected)
    ensures NothingBehind(u, cursor, n)
  {
    forall i | LastEnd(u, n) <= i < |u.all| && LogId(u.all[i]) > cursor ensures WasRead(u, n, u.all[i]) {
      LastPageIsOlder(u, cursor, n, collected, i);
    }
  }

  /** What lies behind the last page is older than something collected, if it is above the cursor. */
  lemma LastPageIsOlder(u: PagedLog, cursor: nat, n: nat, collected: seq<Log>, i: nat)
    requires u.Grows() && IdsDescend(u.all) && 0 < n && Arrived(u, n)
    requires CollectedFrom(u, cursor, n, collected) && collected != []
    requires LastEnd(u, n) <= i < |u.all| && LogId(u.all[i]) > cursor
    ensures LogId(u.all[i]) <= MaxId(collected)
  {
    MaxIdIsMax(collected);
    var s := u.Start(n - 1);
    assert u.Page(n - 1)[0] == u.all[s];
    assert OnPage(u, n - 1, u.all[s]);
    assert u.all[s] in collected;
  }

  /** A pull misses nothing between the cursor and the newest log it collected, exactly if whatever
      lies behind its last page above the cursor had been on an earlier page. */
  lemma PullGaplessIff(u: PagedLog, cursor: nat, stopBefore: nat)
    requires u.Grows() && IdsDescend(u.all) && cursor > 0
    requires Pulled(u, cursor, stopBefore).pages > 0 && Pulled(u, cursor, stopBefore).collected != []
    ensures var r := Pulled(u, cursor, stopBefore);
            r.pages <= u.MaxPages() &&
            (Gapless(u, cursor, r.collected) <==> NothingBehind(u, cursor, r.pages))
  {
    PullCollects(u, cursor, stopBefore, 0, []);
    var r := Pulled(u, cursor, stopBefore);
    if NothingBehind(u, cursor, r.pages) {
      GaplessIfNothingBehind(u, cursor, r.pages, r.collected);
    }
    if Gapless(u, cursor, r.collected) {
      NothingBehindIfGapless(u, cursor, r.pages, r.collected);
    }
  }

  /** A pull that ends at the cursor, or at the end of the log, leaves nothing behind. */
  lemma {:induction false} GoodEndingReaches(u: PagedLog, cursor: nat, stopBefore: nat, page: nat, collected: seq<Log>)
    requires u.Grows() && IdsDescend(u.all) && cursor > 0
    ensures var r := PulledFrom(u, cursor, stopBefore, page, collected);
            r.pages > 0 && (r.ending.Reached? || r.ending.Empty?) ==>
              r.pages <= u.MaxPages() && NothingBehind(u, cursor, r.pages)
    decreases u.MaxPages() - page
  {
    hide MinId, Above, NothingBehind, IdsDescend;
    if page >= u.MaxPages() || page >= stopBefore || u.fetches[page].fails {
    } else if u.Page(page) == [] {
      if page > 0 { EmptyPageReaches(u, cursor, page); }
    } else if MinId(u.Page(page)) <= cursor {
      CursorPageReaches(u, cursor, page);
    } else {
      GoodEndingReaches(u, cursor, stopBefore, page + 1, collected + Above(u.Page(page), cursor));
    }
  }

  lemma EmptyPageReaches(u: PagedLog, cursor: nat, page: nat)
    requires u.Grows() && 0 < page < u.MaxPages() && u.Page(page) == []
    ensures NothingBehind(u, cursor, page)
  {
    NoGap(u, page);
  }

  lemma CursorPageReaches(u: PagedLog, cursor: nat, page: nat)
    requires u.Grows() && IdsDescend(u.all) && page < u.MaxPages()
    requires u.Page(page) != [] && MinId(u.Page(page)) <= cursor
    ensures NothingBehind(u, cursor, page + 1)
  {
    var i :| 0 <= i < |u.Page(page)| && LogId(u.Page(page)[i]) == MinId(u.Page(page));
    assert u.all[u.Start(page) + i] == u.Page(page)[i];
  }

  predicate GoodEnding(r: Pull) {
    r.ending.Reached? || r.ending.Empty?
  }

  /** Arriving logs and repeated pages notwithstanding, such a pull collects every log between the
      cursor and the newest it collected. */
  lemma GoodPullIsGapless(u: PagedLog, cursor: nat, stopBefore: nat)
    requires u.Grows() && IdsDescend(u.all) && cursor > 0
    requires GoodEnding(Pulled(u, cursor, stopBefore))
    ensures Gapless(u, cursor, Pulled(u, cursor, stopBefore).collected)
  {
    var r := Pulled(u, cursor, stopBefore);
    if r.collected != [] {
      PullCollects(u, cursor, stopBefore, 0, []);
      assert r.collected[0] in r.collected;
      assert WasRead(u, r.pages, r.collected[0]);
      GoodEndingReaches(u, cursor, stopBefore, 0, []);
      PullGaplessIff(u, cursor, stopBefore);
    }
  }

  // ---------------------------------------------------------------------------------------
  // Pulls while nothing arrives and no page fails
  // ---------------------------------------------------------------------------------------

  /** How many of the newest logs the pages of a pull hold. */
  function Budget(u: PagedLog, stopBefore: nat): nat {
    u.Span(ReadLimit(u, stopBefore))
  }

  lemma QuietCursorPage(u: PagedLog, cursor: nat, page: nat, i: nat)
    requires u.Quiet() && IdsDescend(u.all) && page < u.MaxPages()
    requires u.Page(page) != [] && MinId(u.Page(page)) <= cursor
    requires i < |u.all| && LogId(u.all[i]) > cursor
    ensures i < u.Span(page + 1)
  {
    var j :| 0 <= j < |u.Page(page)| && LogId(u.Page(page)[j]) == MinId(u.Page(page));
    assert u.all[u.Start(page) + j] == u.Page(page)[j];
  }

  lemma QuietEmptyPage(u: PagedLog, page: nat)
    requires u.Quiet() && page < u.MaxPages() && u.Page(page) == []
    ensures |u.all| <= u.Span(page)
  {
    SpanStep(u, page);
  }

  /** Such a pull reads on until its pages are used up or nothing above the cursor is left. */
  lemma {:induction false} QuietPullEnds(u: PagedLog, cursor: nat, stopBefore: nat, page: nat, collected: seq<Log>)
    requires u.Quiet() && IdsDescend(u.all) && cursor > 0 && page <= ReadLimit(u, stopBefore)
    ensures var r := PulledFrom(u, cursor, stopBefore, page, collected);
            && r.pages <= ReadLimit(u, stopBefore)
            && if GoodEnding(r)
               then forall i :: 0 <= i < |u.all| && LogId(u.all[i]) > cursor ==> i < u.Span(r.pages)
               else r.pages == ReadLimit(u, stopBefore)
                    && r.ending == if stopBefore < u.MaxPages() then Stopped else Capped
    decreases u.MaxPages() - page
  {
    hide IdsDescend, Above, MinId;
    if page == ReadLimit(u, stopBefore) {
    } else if u.Page(page) == [] {
      QuietEmptyPage(u, page);
    } else if MinId(u.Page(page)) <= cursor {
      forall i | 0 <= i < |u.all| && LogId(u.all[i]) > cursor ensures i < u.Span(page + 1) {
        QuietCursorPage(u, cursor, page, i);
      }
    } else {
      QuietPullEnds(u, cursor, stopBefore, page + 1, collected + Above(u.Page(page), cursor));
    }
  }

  /** It collects exactly those of the newest logs, as many as the pages hold, that are above the
      cursor. */
  lemma QuietPullCollects(u: PagedLog, cursor: nat, stopBefore: nat, i: nat)
    requires u.Quiet() && IdsDescend(u.all) && cursor > 0 && i < |u.all|
    ensures u.all[i] in Pulled(u, cursor, stopBefore).collected <==>
              LogId(u.all[i]) > cursor && i < Budget(u, stopBefore)
  {
    var r := Pulled(u, cursor, stopBefore);
    PullCollects(u, cursor, stopBefore, 0, []);
    QuietPullEnds(u, cursor, stopBefore, 0, []);
    hide Pulled, PulledFrom, IdsDescend;
    QuietReadIff(u, r.pages, i);
    SpanGrows(u, r.pages, ReadLimit(u, stopBefore));
  }

  lemma NoBudget(u: PagedLog, cursor: nat, stopBefore: nat)
    requires u.Quiet() && Budget(u, stopBefore) == 0
    ensures Pulled(u, cursor, stopBefore).collected == []
  {
    assert ReadLimit(u, stopBefore) == 0;
  }

  lemma QuietEnding(u: PagedLog, cursor: nat, stopBefore: nat)
    requires u.Quiet() && IdsDescend(u.all) && cursor > 0
    ensures var r := Pulled(u, cursor, stopBefore);
            if GoodEnding(r) then Gapless(u, cursor, r.collected)
            else r.ending == if stopBefore < u.MaxPages() then Stopped else Capped
  {
    QuietPullEnds(u, cursor, stopBefore, 0, []);
    hide PulledFrom, IdsDescend;
    if GoodEnding(Pulled(u, cursor, stopBefore)) {
      GoodPullIsGapless(u, cursor, stopBefore);
    }
  }

  /** So it misses nothing, exactly if the first log the pages do not hold is not above the cursor; and
      one that misses something ends at the stop or at the page cap. */
  lemma QuietPullGaplessIff(u: PagedLog, cursor: nat, stopBefore: nat)
    requires u.Quiet() && IdsDescend(u.all) && cursor > 0
    ensures var r, n := Pulled(u, cursor, stopBefore), Budget(u, stopBefore);
            && (Gapless(u, cursor, r.collected) <==> (0 < n < |u.all| ==> LogId(u.all[n]) <= cursor))
            && (!Gapless(u, cursor, r.collected) ==>
                  r.ending == if stopBefore < u.MaxPages() then Stopped else Capped)
  {
    var r, n := Pulled(u, cursor, stopBefore), Budget(u, stopBefore);
    forall i | 0 <= i < |u.all|
      ensures u.all[i] in r.collected <==> LogId(u.all[i]) > cursor && i < n
    {
      QuietPullCollects(u, cursor, stopBefore, i);
    }
    QuietEnding(u, cursor, stopBefore);
    if n == 0 { NoBudget(u, cursor, stopBefore); }
    hide Pulled, Budget;
    MaxIdIsMax(r.collected);
    if 0 < n < |u.all| && LogId(u.all[n]) > cursor {
      assert u.all[0] in r.collected;
      assert LogId(u.all[n]) <= MaxId(r.collected);
    }
  }

  // ---------------------------------------------------------------------------------------
  // Exactly one row per log
  // ---------------------------------------------------------------------------------------

  ghost predicate OneRowPerLog(rows: seq<Row>) {
    forall a, b :: 0 <= a < b < |rows| ==> rows[a].mainLog != rows[b].mainLog
  }

  predicate RowFrom(all: seq<Log>, row: Row) {
    exists i :: 0 <= i < |all| && Usable(all[i]) && row == RowOf(all[i])
  }

  /** Rows above `floor` were written from the main site's log. */
  ghost predicate Genuine(all: seq<Log>, floor: nat, rows: seq<Row>) {
    forall k :: 0 <= k < |rows| && rows[k].mainLog > floor ==> RowFrom(all, rows[k])
  }

  /** Every timestamped log in (floor, cursor] has its row. */
  ghost predicate Filled(all: seq<Log>, floor: nat, l: Ledger) {
    forall i :: 0 <= i < |all| && Usable(all[i]) && floor < LogId(all[i]) <= l.cursor ==> RowOf(all[i]) in l.rows
  }

  ghost predicate LedgerOk(all: seq<Log>, floor: nat, l: Ledger) {
    floor <= l.cursor && OneRowPerLog(l.rows) && Genuine(all, floor, l.rows) && Filled(all, floor, l)
  }

  lemma {:induction false} InsertKeepsRows(rows: seq<Row>, logs: seq<Log>)
    ensures |rows| <= |InsertedAll(rows, logs)|
    ensures InsertedAll(rows, logs)[..|rows|] == rows
  {
    if logs != [] {
      InsertKeepsRows(rows, logs[..|logs| - 1]);
    }
  }

  lemma {:induction false} InsertKeepsUnique(rows: seq<Row>, logs: seq<Log>)
    requires OneRowPerLog(rows)
    ensures OneRowPerLog(InsertedAll(rows, logs))
  {
    if logs != [] {
      InsertKeepsUnique(rows, logs[..|logs| - 1]);
    }
  }

  lemma {:induction false} InsertKeepsGenuine(all: seq<Log>, floor: nat, rows: seq<Row>, logs: seq<Log>)
    requires Genuine(all, floor, rows)
    requires forall i :: 0 <= i < |logs| ==> logs[i] in all
    ensures Genuine(all, floor, InsertedAll(rows, logs))
  {
    if logs != [] {
      var n := |logs| - 1;
      InsertKeepsGenuine(all, floor, rows, logs[..n]);
      assert logs[n] in all;
      assert Usable(logs[n]) ==> RowFrom(all, RowOf(logs[n]));
    }
  }

  /** A genuine row with the log's id is the log's row. */
  lemma RowIsOfLog(all: seq<Log>, row: Row, log: Log)
    requires IdsDescend(all) && log in all && Usable(log)
    requires RowFrom(all, row) && row.mainLog == LogId(log)
    ensures row == RowOf(log)
  {
    var i :| 0 <= i < |all| && Usable(all[i]) && row == RowOf(all[i]);
    var j :| 0 <= j < |all| && all[j] == log;
    assert i == j;
  }

  lemma {:induction false} InsertFills(all: seq<Log>, floor: nat, rows: seq<Row>, logs: seq<Log>, log: Log)
    requires IdsDescend(all) && Genuine(all, floor, rows)
    requires forall i :: 0 <= i < |logs| ==> logs[i] in all
    requires log in logs && Usable(log) && LogId(log) > floor
    ensures RowOf(log) in InsertedAll(rows, logs)
  {
    var n := |logs| - 1;
    var before := InsertedAll(rows, logs[..n]);
    if log == logs[n] {
      InsertKeepsGenuine(all, floor, rows, logs[..n]);
      assert logs[n] in all;
      if HasRow(before, LogId(log)) {
        var k :| 0 <= k < |before| && before[k].mainLog == LogId(log);
        RowIsOfLog(all, before[k], log);
      } else {
        assert InsertedAll(rows, logs)[|before|] == RowOf(log);
      }
    } else {
      assert logs == logs[..n] + [logs[n]];
      InsertFills(all, floor, rows, logs[..n], log);
      var k :| 0 <= k < |before| && before[k] == RowOf(log);
      assert InsertedAll(rows, logs)[k] == RowOf(log);
    }
  }

  lemma CollectedInHistory(u: PagedLog, cursor: nat, stopBefore: nat)
    requires cursor > 0
    ensures var r := Pulled(u, cursor, stopBefore);
            forall i :: 0 <= i < |r.collected| ==> r.collected[i] in u.all
  {
    PullCollects(u, cursor, stopBefore, 0, []);
    var r := Pulled(u, cursor, stopBefore);
    forall i | 0 <= i < |r.collected| ensures r.collected[i] in u.all {
      assert r.collected[i] in r.collected;
      var p :| 0 <= p < r.pages && OnPage(u, p, r.collected[i]);
      var j :| 0 <= j < |u.Page(p)| && u.Page(p)[j] == r.collected[i];
      assert u.all[u.Start(p) + j] == r.collected[i];
    }
  }

  lemma RoundFills(floor: nat, l: Ledger, u: PagedLog, stopBefore: nat, i: nat)
    requires u.Grows() && IdsDescend(u.all) && 0 < l.cursor && LedgerOk(u.all, floor, l)
    requires GoodEnding(Pulled(u, l.cursor, stopBefore))
    requires i < |u.all| && Usable(u.all[i]) && floor < LogId(u.all[i]) <= AfterRound(l, u, stopBefore).cursor
    ensures RowOf(u.all[i]) in AfterRound(l, u, stopBefore).rows
  {
    hide Pulled, InsertedAll, IdsDescend;
    var collected := Pulled(u, l.cursor, stopBefore).collected;
    if LogId(u.all[i]) <= l.cursor {
      InsertKeepsRows(l.rows, collected);
      var k :| 0 <= k < |l.rows| && l.rows[k] == RowOf(u.all[i]);
      assert InsertedAll(l.rows, collected)[..|l.rows|][k] == RowOf(u.all[i]);
    } else {
      GoodPullIsGapless(u, l.cursor, stopBefore);
      CollectedInHistory(u, l.cursor, stopBefore);
      InsertFills(u.all, floor, l.rows, collected, u.all[i]);
    }
  }

  lemma RoundKeepsLedger(floor: nat, l: Ledger, u: PagedLog, stopBefore: nat)
    requires u.Grows() && IdsDescend(u.all) && 0 < l.cursor && LedgerOk(u.all, floor, l)
    requires GoodEnding(Pulled(u, l.cursor, stopBefore)) || Pulled(u, l.cursor, stopBefore).ending.Failed?
    ensures LedgerOk(u.all, floor, AfterRound(l, u, stopBefore))
  {
    hide Pulled, InsertedAll, IdsDescend;
    var r := Pulled(u, l.cursor, stopBefore);
    if GoodEnding(r) {
      CollectedInHistory(u, l.cursor, stopBefore);
      InsertKeepsUnique(l.rows, r.collected);
      InsertKeepsGenuine(u.all, floor, l.rows, r.collected);
      forall i | 0 <= i < |u.all| && Usable(u.all[i]) && floor < LogId(u.all[i]) <= AfterRound(l, u, stopBefore).cursor
        ensures RowOf(u.all[i]) in AfterRound(l, u, stopBefore).rows
      {
        RoundFills(floor, l, u, stopBefore, i);
      }
    }
  }

  // ---------------------------------------------------------------------------------------
  // Runs
  // ---------------------------------------------------------------------------------------

  /** How the pages of one round were served, out of the main site's whole history. */
  datatype Service = Service(fetches: seq<Fetch>, clamped: bool, pageSize: nat, stopBefore: nat)

  function LogOf(all: seq<Log>, s: Service): PagedLog {
    PagedLog(all, s.fetches, s.clamped, s.pageSize)
  }

  function AfterRun(l: Ledger, all: seq<Log>, run: seq<Service>): Ledger {
    if run == [] then l
    else
      var s := run[|run| - 1];
      AfterRound(AfterRun(l, all, run[..|run| - 1]), LogOf(all, s), s.stopBefore)
  }

  /** Every round's pull either fails or ends at the cursor or at the end of the log. */
  ghost predicate GoodRun(l: Ledger, all: seq<Log>, run: seq<Service>) {
    forall k :: 0 <= k < |run| ==>
      var u := LogOf(all, run[k]);
      var pull := Pulled(u, AfterRun(l, all, run[..k]).cursor, run[k].stopBefore);
      u.Grows() && (GoodEnding(pull) || pull.ending.Failed?)
  }

  lemma {:induction false} CursorNeverFalls(l: Ledger, all: seq<Log>, run: seq<Service>)
    ensures l.cursor <= AfterRun(l, all, run).cursor
  {
    if run != [] {
      CursorNeverFalls(l, all, run[..|run| - 1]);
    }
  }

  lemma {:induction false} RunKeepsLedger(floor: nat, l: Ledger, all: seq<Log>, run: seq<Service>)
    requires IdsDescend(all) && 0 < l.cursor && GoodRun(l, all, run) && LedgerOk(all, floor, l)
    ensures LedgerOk(all, floor, AfterRun(l, all, run))
  {
    hide IdsDescend, Pulled, AfterRound, LedgerOk;
    if run != [] {
      var n := |run| - 1;
      forall k | 0 <= k < n ensures run[..n][..k] == run[..k] {}
      RunKeepsLedger(floor, l, all, run[..n]);
      CursorNeverFalls(l, all, run[..n]);
      RoundKeepsLedger(floor, AfterRun(l, all, run[..n]), LogOf(all, run[n]), run[n].stopBefore);
    }
  }

  /** What a row says about its log: the time in whole seconds, and "unknown" for a missing model. */
  predicate Shows(row: Row, log: Log) {
    && log.id == Some(row.mainLog) && log.created.Some?
    && row.requestAt % 1_000_000 == 0 && row.requestAt <= log.created.value < row.requestAt + 1_000_000
    && row.modelName == (if log.modelName == "" then "unknown" else log.modelName)
    && row.promptTokens == log.promptTokens && row.completionTokens == log.completionTokens
    && row.cacheRead == log.cacheRead
  }

  /** Every timestamped log in (floor, cursor] has exactly one row, which shows it; and every row above
      the floor shows some log. */
  ghost predicate OneRowEach(all: seq<Log>, floor: nat, l: Ledger) {
    && (forall i :: 0 <= i < |all| && all[i].created.Some? && floor < LogId(all[i]) <= l.cursor ==>
          exists k :: 0 <= k < |l.rows| && Shows(l.rows[k], all[i]))
    && (forall k, j :: 0 <= k < j < |l.rows| ==> l.rows[k].mainLog != l.rows[j].mainLog)
    && (forall k :: 0 <= k < |l.rows| && l.rows[k].mainLog > floor ==>
          exists i :: 0 <= i < |all| && Shows(l.rows[k], all[i]))
  }

  lemma RowShows(log: Log)
    requires Usable(log)
    ensures Shows(RowOf(log), log)
  {
  }

  lemma LedgerShows(all: seq<Log>, floor: nat, l: Ledger)
    requires LedgerOk(all, floor, l)
    ensures OneRowEach(all, floor, l)
  {
    hide RowOf, Shows;
    forall i | 0 <= i < |all| && all[i].created.Some? && floor < LogId(all[i]) <= l.cursor
      ensures exists k :: 0 <= k < |l.rows| && Shows(l.rows[k], all[i])
    {
      RowShows(all[i]);
      var k :| 0 <= k < |l.rows| && l.rows[k] == RowOf(all[i]);
    }
    forall k | 0 <= k < |l.rows| && l.rows[k].mainLog > floor
      ensures exists i :: 0 <= i < |all| && Shows(l.rows[k], all[i])
    {
      var i :| 0 <= i < |all| && Usable(all[i]) && l.rows[k] == RowOf(all[i]);
      RowShows(all[i]);
    }
  }

  /** Over any such run, every timestamped log above the first round's cursor and up to the current
      one has exactly one row, carrying that log's values. */
  lemma ExactlyOnce(l: Ledger, all: seq<Log>, run: seq<Service>)
    requires IdsDescend(all) && 0 < l.cursor && GoodRun(l, all, run)
    requires OneRowPerLog(l.rows) && (forall k :: 0 <= k < |l.rows| ==> l.rows[k].mainLog <= l.cursor)
    ensures l.cursor <= AfterRun(l, all, run).cursor && OneRowEach(all, l.cursor, AfterRun(l, all, run))
  {
    RunKeepsLedger(l.cursor, l, all, run);
    LedgerShows(all, l.cursor, AfterRun(l, all, run));
  }

  /** A round adds no row at or below its cursor. */
  lemma {:induction false} InsertsAbove(rows: seq<Row>, logs: seq<Log>, cursor: nat, id: nat)
    requires id <= cursor
    requires forall i :: 0 <= i < |logs| ==> LogId(logs[i]) > cursor
    ensures HasRow(InsertedAll(rows, logs), id) <==> HasRow(rows, id)
  {
    if logs != [] {
      var n := |logs| - 1;
      InsertsAbove(rows, logs[..n], cursor, id);
      var before, after := InsertedAll(rows, logs[..n]), InsertedAll(rows, logs);
      if HasRow(before, id) {
        var k :| 0 <= k < |before| && before[k].mainLog == id;
        assert after[k].mainLog == id;
      }
    }
  }

  /** What a round passed over (the page cap, a stop, a missing timestamp) no later round adds. */
  lemma {:induction false} PassedOverForever(l: Ledger, all: seq<Log>, run: seq<Service>, id: nat)
    requires 0 < l.cursor && id <= l.cursor
    ensures HasRow(AfterRun(l, all, run).rows, id) <==> HasRow(l.rows, id)
  {
    if run != [] {
      var n := |run| - 1;
      var mid, s := AfterRun(l, all, run[..n]), run[n];
      PassedOverForever(l, all, run[..n], id);
      CursorNeverFalls(l, all, run[..n]);
      PullCollects(LogOf(all, s), mid.cursor, s.stopBefore, 0, []);
      var r := Pulled(LogOf(all, s), mid.cursor, s.stopBefore);
      forall i | 0 <= i < |r.collected| ensures LogId(r.collected[i]) > mid.cursor {
        assert r.collected[i] in r.collected;
      }
      InsertsAbove(mid.rows, r.collected, mid.cursor, id);
    }
  }

  lemma {:induction false} RowAfterInserts(rows: seq<Row>, logs: seq<Log>, id: nat)
    requires HasRow(InsertedAll(rows, logs), id) && !HasRow(rows, id)
    ensures exists k :: 0 <= k < |logs| && LogId(logs[k]) == id
  {
    if logs != [] {
      var n := |logs| - 1;
      if HasRow(InsertedAll(rows, logs[..n]), id) {
        RowAfterInserts(rows, logs[..n], id);
        var k :| 0 <= k < n && LogId(logs[..n][k]) == id;
        assert LogId(logs[k]) == id;
      } else {
        assert LogId(logs[n]) == id;
      }
    }
  }

  /** A log whose id has no row yet gets one exactly if it was collected. */
  lemma RowIffCollected(all: seq<Log>, rows: seq<Row>, collected: seq<Log>, log: Log)
    requires IdsDescend(all) && log in all && Usable(log) && !HasRow(rows, LogId(log))
    requires forall k :: 0 <= k < |collected| ==> collected[k] in all
    ensures HasRow(InsertedAll(rows, collected), LogId(log)) <==> log in collected
  {
    var after := InsertedAll(rows, collected);
    if log in collected {
      RowOfCollected(rows, collected, log);
    }
    if HasRow(after, LogId(log)) {
      RowAfterInserts(rows, collected, LogId(log));
      var k :| 0 <= k < |collected| && LogId(collected[k]) == LogId(log);
      SameIdSameLog(all, collected[k], log);
    }
  }

  lemma SameIdSameLog(all: seq<Log>, a: Log, b: Log)
    requires IdsDescend(all) && a in all && b in all && LogId(a) == LogId(b)
    ensures a == b
  {
    var i :| 0 <= i < |all| && all[i] == a;
    var j :| 0 <= j < |all| && all[j] == b;
    assert i == j;
  }

  lemma {:induction false} RowOfCollected(rows: seq<Row>, logs: seq<Log>, log: Log)
    requires log in logs && Usable(log)
    ensures HasRow(InsertedAll(rows, logs), LogId(log))
  {
    var n := |logs| - 1;
    var before, after := InsertedAll(rows, logs[..n]), InsertedAll(rows, logs);
    if log == logs[n] {
      if !HasRow(before, LogId(log)) { assert after[|before|].mainLog == LogId(log); }
    } else {
      assert logs == logs[..n] + [logs[n]];
      RowOfCollected(rows, logs[..n], log);
      var k :| 0 <= k < |before| && before[k].mainLog == LogId(log);
      assert after[k].mainLog == LogId(log);
    }
  }

  /** After a quiet round a new log has its row, exactly if it is among the newest that the pages hold;
      where it is not, no later round adds it, whatever the pages then hold. */
  lemma QuietRoundRowsIff(l: Ledger, u: PagedLog, stopBefore: nat, i: nat, later: seq<Log>, run: seq<Service>)
    requires u.Quiet() && IdsDescend(u.all) && 0 < l.cursor && 0 < Budget(u, stopBefore)
    requires i < |u.all| && Usable(u.all[i]) && LogId(u.all[i]) > l.cursor && !HasRow(l.rows, LogId(u.all[i]))
    ensures HasRow(AfterRun(AfterRound(l, u, stopBefore), later, run).rows, LogId(u.all[i])) <==>
              i < Budget(u, stopBefore)
  {
    var after, collected := AfterRound(l, u, stopBefore), Pulled(u, l.cursor, stopBefore).collected;
    QuietPullCollects(u, l.cursor, stopBefore, i);
    QuietPullCollects(u, l.cursor, stopBefore, 0);
    CollectedInHistory(u, l.cursor, stopBefore);
    QuietEnding(u, l.cursor, stopBefore);
    hide Pulled, Budget;
    RowIffCollected(u.all, l.rows, collected, u.all[i]);
    MaxIdIsMax(collected);
    assert u.all[0] in collected && LogId(u.all[i]) <= LogId(u.all[0]);
    PassedOverForever(after, later, run, LogId(u.all[i]));
  }

  const MAIN_LOG_PAGE_SIZE := 100
  const MAIN_LOG_MAX_PAGES := 10

  /** One log more than the ten pages of 100 hold, ids 1002 down to 2. */
  function BusyLog(): (all: seq<Log>)
    ensures |all| == MAIN_LOG_MAX_PAGES * MAIN_LOG_PAGE_SIZE + 1 && IdsDescend(all)
    ensures forall i :: 0 <= i < |all| ==> Usable(all[i]) && LogId(all[i]) == 1002 - i
  {
    seq(MAIN_LOG_MAX_PAGES * MAIN_LOG_PAGE_SIZE + 1,
        i requires 0 <= i < 1001 => Log(Some(1002 - i), Some(0), "m", 1, 1, None))
  }

  function CappedLog(clamped: bool): PagedLog {
    PagedLog(BusyLog(), seq(MAIN_LOG_MAX_PAGES, _ => Fetch(0, false)), clamped, MAIN_LOG_PAGE_SIZE)
  }

  /** With the cursor at 1, a round ends at the page cap, and log 2 never gets a row, whether or not
      page 1 repeats page 0. */
  lemma CappedPullPassesOver(clamped: bool, later: seq<Log>, run: seq<Service>)
    ensures var u := CappedLog(clamped);
            && u.Quiet() && IdsDescend(u.all) && Usable(u.all[1000]) && LogId(u.all[1000]) == 2
            && Pulled(u, 1, MAIN_LOG_MAX_PAGES).ending.Capped?
            && !HasRow(AfterRun(AfterRound(Ledger([], 1), u, MAIN_LOG_MAX_PAGES), later, run).rows, 2)
  {
    var u := CappedLog(clamped);
    assert Budget(u, MAIN_LOG_MAX_PAGES) == if clamped then 900 else 1000;
    hide Pulled, Budget, AfterRound, BusyLog;
    QuietPullGaplessIff(u, 1, MAIN_LOG_MAX_PAGES);
    QuietRoundRowsIff(Ledger([], 1), u, MAIN_LOG_MAX_PAGES, 1000, later, run);
  }
}
