/** A remote log that is read page by page, newest first, while new entries keep arriving. */
module Paging {

  import opened Options

  /** Times are microseconds. */
  type Time = int

  const SECOND: Time := 1_000_000

  /** The time as an ISO string with whole seconds keeps it. */
  function ToSecond(t: Time): Time {
    t / SECOND * SECOND
  }

  datatype Log = Log(
    id: Option<nat>,
    created: Option<Time>,
    modelName: string,
    promptTokens: nat,
    completionTokens: nat,
    cacheRead: Option<nat>)
  {
    function Key(): (Option<nat>, Option<Time>) {
      (id, created)
    }
  }

  /** How the read of one page turns out: `hidden` logs of the final history do not exist yet. */
  datatype Fetch = Fetch(hidden: nat, fails: bool)

  /** One remote log during one round: its history as of the end of the round, newest first, and the
      circumstances of each page read.  Some NewAPI versions clamp page 0 to page 1.  The number of
      fetches is the page budget: 10 pages of 100 for NewAPI, 6 of 500 for sub2api. */
  datatype PagedLog = PagedLog(all: seq<Log>, fetches: seq<Fetch>, clamped: bool, pageSize: nat)
  {
    /** New logs only ever arrive at the front; nothing is deleted. */
    ghost predicate Grows() {
      && pageSize > 0
      && (forall p :: 0 <= p < |fetches| ==> fetches[p].hidden <= |all|)
      && (forall p, q :: 0 <= p < q < |fetches| ==> fetches[q].hidden <= fetches[p].hidden)
    }

    /** The history is ordered by time, and no two logs agree in id and time. */
    ghost predicate Valid() {
      && Grows()
      && (forall i, j :: 0 <= i < j < |all| ==> all[i].Key() != all[j].Key())
      && (forall i, j :: 0 <= i < j < |all| && all[i].created.Some? && all[j].created.Some? ==>
            all[j].created.value <= all[i].created.value)
    }

    /** Every page arrives, and nothing is added meanwhile. */
    ghost predicate Quiet() {
      pageSize > 0 && forall p :: 0 <= p < |fetches| ==> fetches[p] == Fetch(0, false)
    }

    function MaxPages(): nat {
      |fetches|
    }

    function Offset(page: nat): nat {
      if clamped && page > 0 then (page - 1) * pageSize else page * pageSize
    }

    /** How many of the newest logs the first `n` pages hold if nothing arrives meanwhile. */
    function Span(n: nat): nat {
      if n == 0 then 0 else Offset(n - 1) + pageSize
    }

    function Cut(i: nat): (r: nat)
      ensures r <= |all|
    {
      if i <= |all| then i else |all|
    }

    /** Where in the final history the read of a page starts. */
    function Start(page: nat): (r: nat)
      requires page < MaxPages()
      ensures r <= |all|
    {
      Cut(fetches[page].hidden + Offset(page))
    }

    function PageFrom(start: nat): (r: seq<Log>)
      requires start <= |all|
    {
      all[start..Cut(start + pageSize)]
    }

    function Page(page: nat): seq<Log>
      requires page < MaxPages()
    {
      PageFrom(Start(page))
    }
  }

  /** The page was read and holds the log. */
  ghost predicate OnPage(u: PagedLog, page: nat, log: Log) {
    page < u.MaxPages() && !u.fetches[page].fails && log in u.Page(page)
  }

  /** Some page among the first `n` held the log. */
  ghost predicate WasRead(u: PagedLog, n: nat, log: Log) {
    exists p :: 0 <= p < n && OnPage(u, p, log)
  }

  lemma NextOffset(u: PagedLog, n: nat)
    requires n > 0
    ensures u.Offset(n) <= u.Offset(n - 1) + u.pageSize
  {
    assert n * u.pageSize == (n - 1) * u.pageSize + u.pageSize;
    if u.clamped && n > 1 {
      assert (n - 1) * u.pageSize == (n - 2) * u.pageSize + u.pageSize;
    }
  }

  /** New logs push the pages back, never forward: two successive pages leave no gap. */
  lemma NoGap(u: PagedLog, n: nat)
    requires u.Grows() && 0 < n < u.MaxPages()
    ensures u.Start(n) <= u.Start(n - 1) + u.pageSize
  {
    NextOffset(u, n);
  }

  /** The history as of the first read starts here in the final history. */
  function First(u: PagedLog): nat
    requires u.MaxPages() > 0
  {
    u.fetches[0].hidden
  }

  /** How far the first `n` pages reach. */
  function Reach(u: PagedLog, n: nat): (r: nat)
    requires u.MaxPages() > 0 && n <= u.MaxPages()
  {
    if n == 0 then First(u)
    else
      var end := u.Cut(u.Start(n - 1) + u.pageSize);
      if end < Reach(u, n - 1) then Reach(u, n - 1) else end
  }

  lemma {:induction false} ReachGrows(u: PagedLog, m: nat, n: nat)
    requires u.MaxPages() > 0 && m <= n <= u.MaxPages()
    ensures Reach(u, m) <= Reach(u, n)
  {
    if m < n { ReachGrows(u, m, n - 1); }
  }

  // ---------------------------------------------------------------------------------------
  // Which logs the first pages hold while nothing arrives
  // ---------------------------------------------------------------------------------------

  /** The pages in front of the one where the stop event is found set. */
  function ReadLimit(u: PagedLog, stopBefore: nat): nat {
    if stopBefore < u.MaxPages() then stopBefore else u.MaxPages()
  }

  ghost predicate NoRepeats(all: seq<Log>) {
    forall i, j :: 0 <= i < j < |all| ==> all[i] != all[j]
  }

  /** A log that was read, as a place in the history. */
  lemma PlaceOf(u: PagedLog, n: nat, log: Log) returns (m: nat)
    requires n <= u.MaxPages() && WasRead(u, n, log)
    ensures m < |u.all| && u.all[m] == log
  {
    var p :| 0 <= p < n && OnPage(u, p, log);
    var j :| 0 <= j < |u.Page(p)| && u.Page(p)[j] == log;
    m := u.Start(p) + j;
  }

  lemma QuietOnPageIff(u: PagedLog, p: nat, i: nat)
    requires u.Quiet() && NoRepeats(u.all) && p < u.MaxPages() && i < |u.all|
    ensures OnPage(u, p, u.all[i]) <==> u.Offset(p) <= i < u.Offset(p) + u.pageSize
  {
    var s := u.Start(p);
    if OnPage(u, p, u.all[i]) {
      var j :| 0 <= j < |u.Page(p)| && u.Page(p)[j] == u.all[i];
      assert u.all[s + j] == u.all[i];
    }
    if u.Offset(p) <= i < u.Offset(p) + u.pageSize {
      assert u.Page(p)[i - s] == u.all[i];
    }
  }

  lemma ReadOneMore(u: PagedLog, n: nat, log: Log)
    ensures WasRead(u, n + 1, log) <==> WasRead(u, n, log) || OnPage(u, n, log)
  {
    hide OnPage;
    if WasRead(u, n + 1, log) {
      var p :| 0 <= p < n + 1 && OnPage(u, p, log);
      assert p < n ==> WasRead(u, n, log);
    }
    if WasRead(u, n, log) {
      var p :| 0 <= p < n && OnPage(u, p, log);
    }
  }

  lemma SpanStep(u: PagedLog, n: nat)
    ensures u.Offset(n) <= u.Span(n) <= u.Span(n + 1)
  {
    if n > 0 {
      NextOffset(u, n);
      assert n * u.pageSize == (n - 1) * u.pageSize + u.pageSize;
    }
  }

  lemma {:induction false} SpanGrows(u: PagedLog, m: nat, n: nat)
    requires m <= n
    ensures u.Span(m) <= u.Span(n)
  {
    if m < n {
      SpanGrows(u, m, n - 1);
      SpanStep(u, n - 1);
    }
  }

  lemma {:induction false} QuietReadIff(u: PagedLog, n: nat, i: nat)
    requires u.Quiet() && NoRepeats(u.all) && n <= u.MaxPages() && i < |u.all|
    ensures WasRead(u, n, u.all[i]) <==> i < u.Span(n)
  {
    hide OnPage, NoRepeats;
    if n == 0 {
    } else {
      hide WasRead;
      QuietReadIff(u, n - 1, i);
      QuietOnPageIff(u, n - 1, i);
      ReadOneMore(u, n - 1, u.all[i]);
      SpanStep(u, n - 1);
    }
  }

  /** The least number of pages that hold the log at place `c`. */
  function PagesNeeded(u: PagedLog, c: nat): nat
    requires u.pageSize > 0
  {
    if u.clamped && c >= u.pageSize then c / u.pageSize + 2 else c / u.pageSize + 1
  }

  lemma PageOf(c: nat, size: nat, n: nat)
    requires size > 0
    ensures n * size <= c <==> n <= c / size
  {
    assert c == c / size * size + c % size;
    if n <= c / size {
      FewerPages(n, c / size, size);
    } else {
      FewerPages(c / size + 1, n, size);
    }
  }

  lemma FewerPages(m: nat, n: nat, size: nat)
    requires m <= n
    ensures m * size <= n * size
  {
  }

  lemma PagesNeededIff(u: PagedLog, c: nat, n: nat)
    requires u.pageSize > 0
    ensures c < u.Span(n) <==> PagesNeeded(u, c) <= n
  {
    PageOf(c, u.pageSize, 1);
    if n > 0 {
      var pages := if u.clamped && n > 1 then n - 1 else n;
      assert pages * u.pageSize == (pages - 1) * u.pageSize + u.pageSize;
      assert u.Span(n) == pages * u.pageSize;
      PageOf(c, u.pageSize, pages);
    }
  }
}
