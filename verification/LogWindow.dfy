/** The lazily paged window over an upstream's consumption log.  Pages are read newest first,
    shared by all rows of a round, until the time a row needs is covered. */
module LogWindow {

  import opened Options
  import opened Paging

  datatype Window = Window(
    logs: seq<Log>,
    oldest: Option<Time>,
    exhausted: bool,
    pagesFetched: nat,
    lastKey: Option<(Option<nat>, Option<Time>)>)

  const NO_WINDOW := Window([], None, false, 0, None)

  function Older(oldest: Option<Time>, log: Log): Option<Time> {
    if log.created.Some? && (oldest.None? || log.created.value < oldest.value) then log.created else oldest
  }

  function OldestOf(oldest: Option<Time>, logs: seq<Log>): Option<Time> {
    if logs == [] then oldest else Older(OldestOf(oldest, logs[..|logs| - 1]), logs[|logs| - 1])
  }

  predicate Covers(w: Window, target: Time) {
    w.oldest.Some? && w.oldest.value <= target
  }

  /** One page more. */
  function Fetched(u: PagedLog, w: Window): Window
    requires w.pagesFetched < u.MaxPages()
  {
    var page := w.pagesFetched;
    var next := w.(pagesFetched := page + 1);
    var logs := u.Page(page);
    if u.fetches[page].fails || logs == [] then next.(exhausted := true)
    else if w.lastKey == Some(logs[0].Key()) then next
    else next.(lastKey := Some(logs[0].Key()), logs := w.logs + logs, oldest := OldestOf(w.oldest, logs))
  }

  /** `_ensureUpstreamLogs`: `stopBefore` is the first page in front of which the stop event is
      found set. */
  function Ensured(u: PagedLog, w: Window, target: Time, stopBefore: nat): Window
    decreases u.MaxPages() - w.pagesFetched
  {
    if Covers(w, target) || w.exhausted || w.pagesFetched >= u.MaxPages() || w.pagesFetched >= stopBefore then w
    else Ensured(u, Fetched(u, w), target, stopBefore)
  }

  /** The monitored site behind an upstream: whether it can log in and whether its platform serves
      logs. */
  datatype SiteRow = SiteRow(id: nat, authReady: bool, hasLogApi: bool)

  /** What a round knows about one upstream. */
  datatype Context = Context(site: Option<SiteRow>, window: Window, used: set<nat>)

  class UpstreamContext {
    const site: Option<SiteRow>
    const upstream: PagedLog
    var logs: seq<Log>
    var oldest: Option<Time>
    var exhausted: bool
    var pagesFetched: nat
    var lastPageFirstKey: Option<(Option<nat>, Option<Time>)>
    var usedLogIds: set<nat>

    function View(): Window
      reads this
    {
      Window(logs, oldest, exhausted, pagesFetched, lastPageFirstKey)
    }

    function Value(): Context
      reads this
    {
      Context(site, View(), usedLogIds)
    }

    constructor (site: Option<SiteRow>, upstream: PagedLog)
      ensures Value() == Context(site, NO_WINDOW, {}) && this.upstream == upstream
    {
      this.site, this.upstream := site, upstream;
      logs, oldest, exhausted, pagesFetched, lastPageFirstKey, usedLogIds := [], None, false, 0, None, {};
    }

    method Append(page: seq<Log>)
      modifies `logs, `oldest
      ensures logs == old(logs) + page
      ensures oldest == OldestOf(old(oldest), page)
    {
      for i := 0 to |page|
        invariant logs == old(logs) + page[..i]
        invariant oldest == OldestOf(old(oldest), page[..i])
      {
        assert page[..i + 1][..i] == page[..i];
        logs := logs + [page[i]];
        oldest := Older(oldest, page[i]);
      }
      assert page[..|page|] == page;
    }

    method FetchPage()
      requires pagesFetched < upstream.MaxPages()
      modifies `logs, `oldest, `exhausted, `pagesFetched, `lastPageFirstKey
      ensures View() == Fetched(upstream, old(View()))
    {
      var page := pagesFetched;
      pagesFetched := pagesFetched + 1;
      if upstream.fetches[page].fails {
        exhausted := true;
        return;
      }
      var fetched := upstream.Page(page);
      if fetched == [] {
        exhausted := true;
        return;
      }
      var firstKey := fetched[0].Key();
      if Some(firstKey) == lastPageFirstKey {
        return;
      }
      lastPageFirstKey := Some(firstKey);
      Append(fetched);
    }

    method Ensure(neededFrom: Time, windowSeconds: nat, stopBefore: nat)
      modifies `logs, `oldest, `exhausted, `pagesFetched, `lastPageFirstKey
      ensures View() == Ensured(upstream, old(View()), neededFrom - windowSeconds * SECOND, stopBefore)
    {
      var target := neededFrom - windowSeconds * SECOND;
      while true
        invariant Ensured(upstream, View(), target, stopBefore) == Ensured(upstream, old(View()), target, stopBefore)
        decreases upstream.MaxPages() - pagesFetched
      {
        var covered := oldest.Some? && oldest.value <= target;
        if covered || exhausted || pagesFetched >= upstream.MaxPages() {
          return;
        }
        if pagesFetched >= stopBefore {
          return;
        }
        FetchPage();
      }
    }
  }

  // ---------------------------------------------------------------------------------------
  // What the window holds
  // ---------------------------------------------------------------------------------------

  ghost predicate AllIn(part: seq<Log>, logs: seq<Log>) {
    forall i :: 0 <= i < |part| ==> part[i] in logs
  }

  ghost predicate Attained(oldest: Option<Time>, logs: seq<Log>) {
    && (oldest.Some? ==> exists i :: 0 <= i < |logs| && logs[i].created == oldest)
    && (forall i :: 0 <= i < |logs| && logs[i].created.Some? ==>
          oldest.Some? && oldest.value <= logs[i].created.value)
  }

  ghost predicate HoldsPages(u: PagedLog, n: nat, logs: seq<Log>) {
    forall p :: 0 <= p < n && p < u.MaxPages() && !u.fetches[p].fails ==> AllIn(u.Page(p), logs)
  }

  ghost predicate OnlyRead(u: PagedLog, n: nat, logs: seq<Log>) {
    forall i :: 0 <= i < |logs| ==> WasRead(u, n, logs[i])
  }

  /** The window holds exactly what the pages read so far held, and `oldest` is its oldest time. */
  ghost predicate Exact(u: PagedLog, w: Window) {
    && w.pagesFetched <= u.MaxPages()
    && HoldsPages(u, w.pagesFetched, w.logs)
    && OnlyRead(u, w.pagesFetched, w.logs)
    && Attained(w.oldest, w.logs)
  }

  /** The page that starts with the last key is in the window; only the last read can have failed. */
  ghost predicate Resumable(u: PagedLog, w: Window) {
    && (forall i :: 0 <= i < |u.all| && w.lastKey == Some(u.all[i].Key()) ==> AllIn(u.PageFrom(i), w.logs))
    && (forall p :: 0 <= p < w.pagesFetched && p < u.MaxPages() && u.fetches[p].fails ==>
          w.exhausted && p == w.pagesFetched - 1)
  }

  lemma {:induction false} OldestAttained(oldest: Option<Time>, before: seq<Log>, logs: seq<Log>)
    requires Attained(oldest, before)
    ensures Attained(OldestOf(oldest, logs), before + logs)
  {
    if logs == [] {
      assert before + logs == before;
    } else {
      var n := |logs| - 1;
      OldestAttained(oldest, before, logs[..n]);
      var prev, all := before + logs[..n], before + logs;
      assert all == prev + [logs[n]];
      assert all[|prev|] == logs[n];
      var was := OldestOf(oldest, logs[..n]);
      if was.Some? {
        var i :| 0 <= i < |prev| && prev[i].created == was;
        assert all[i].created == was;
      }
    }
  }

  /** A page whose first key was seen last is a page already read, so skipping it loses nothing. */
  lemma SkippedPageIsKnown(u: PagedLog, w: Window)
    requires u.Valid() && Exact(u, w) && Resumable(u, w)
    requires w.pagesFetched < u.MaxPages()
    requires u.Page(w.pagesFetched) != []
    requires w.lastKey == Some(u.Page(w.pagesFetched)[0].Key())
    ensures AllIn(u.Page(w.pagesFetched), w.logs)
  {
    var s := u.Start(w.pagesFetched);
    assert u.Page(w.pagesFetched)[0] == u.all[s];
  }

  lemma AppendedKeeps(part: seq<Log>, logs: seq<Log>, more: seq<Log>)
    requires AllIn(part, logs)
    ensures AllIn(part, logs + more)
  {
    forall i | 0 <= i < |part| ensures part[i] in logs + more {
      var j :| 0 <= j < |logs| && logs[j] == part[i];
      assert (logs + more)[j] == part[i];
    }
  }

  lemma AppendedHolds(logs: seq<Log>, more: seq<Log>)
    ensures AllIn(more, logs + more)
  {
    forall i | 0 <= i < |more| ensures more[i] in logs + more {
      assert (logs + more)[|logs| + i] == more[i];
    }
  }

  lemma AppendHoldsPages(u: PagedLog, n: nat, logs: seq<Log>)
    requires n < u.MaxPages() && HoldsPages(u, n, logs)
    ensures HoldsPages(u, n + 1, logs + u.Page(n))
  {
    AppendedHolds(logs, u.Page(n));
    forall p | 0 <= p < n + 1 && !u.fetches[p].fails ensures AllIn(u.Page(p), logs + u.Page(n)) {
      if p < n { AppendedKeeps(u.Page(p), logs, u.Page(n)); }
    }
  }

  lemma StillRead(u: PagedLog, n: nat, log: Log)
    requires WasRead(u, n, log)
    ensures WasRead(u, n + 1, log)
  {
    var p :| 0 <= p < n && OnPage(u, p, log);
  }

  lemma AppendOnlyRead(u: PagedLog, n: nat, logs: seq<Log>)
    requires n < u.MaxPages() && !u.fetches[n].fails && OnlyRead(u, n, logs)
    ensures OnlyRead(u, n + 1, logs + u.Page(n))
  {
    var all := logs + u.Page(n);
    forall i | 0 <= i < |all| ensures WasRead(u, n + 1, all[i]) {
      if i < |logs| {
        StillRead(u, n, logs[i]);
      } else {
        assert all[i] == u.Page(n)[i - |logs|];
        assert OnPage(u, n, all[i]);
      }
    }
  }

  lemma AppendKeepsExact(u: PagedLog, w: Window)
    requires Exact(u, w)
    requires w.pagesFetched < u.MaxPages()
    requires !u.fetches[w.pagesFetched].fails && u.Page(w.pagesFetched) != []
    ensures var page := u.Page(w.pagesFetched);
            Exact(u, w.(pagesFetched := w.pagesFetched + 1, logs := w.logs + page,
                        oldest := OldestOf(w.oldest, page), lastKey := Some(page[0].Key())))
  {
    OldestAttained(w.oldest, w.logs, u.Page(w.pagesFetched));
    AppendHoldsPages(u, w.pagesFetched, w.logs);
    AppendOnlyRead(u, w.pagesFetched, w.logs);
  }

  lemma AppendKeepsResumable(u: PagedLog, w: Window)
    requires u.Valid() && Exact(u, w) && Resumable(u, w)
    requires w.pagesFetched < u.MaxPages() && !w.exhausted
    requires !u.fetches[w.pagesFetched].fails && u.Page(w.pagesFetched) != []
    ensures var page := u.Page(w.pagesFetched);
            Resumable(u, w.(pagesFetched := w.pagesFetched + 1, logs := w.logs + page,
                            oldest := OldestOf(w.oldest, page), lastKey := Some(page[0].Key())))
  {
    hide HoldsPages, OnlyRead, Attained;
    var page := u.Page(w.pagesFetched);
    var s := u.Start(w.pagesFetched);
    assert page[0] == u.all[s];
    AppendedHolds(w.logs, page);
    forall i | 0 <= i < |u.all| && page[0].Key() == u.all[i].Key() ensures AllIn(u.PageFrom(i), w.logs + page) {
      assert i == s;
    }
  }

  lemma SamePagesKeepExact(u: PagedLog, w: Window)
    requires u.Valid() && Exact(u, w)
    requires w.pagesFetched < u.MaxPages()
    requires u.fetches[w.pagesFetched].fails || AllIn(u.Page(w.pagesFetched), w.logs)
    ensures Exact(u, w.(pagesFetched := w.pagesFetched + 1))
  {
    forall i | 0 <= i < |w.logs| ensures WasRead(u, w.pagesFetched + 1, w.logs[i]) {
      StillRead(u, w.pagesFetched, w.logs[i]);
    }
  }

  lemma SamePagesKeepResumable(u: PagedLog, w: Window, exhausted: bool)
    requires Resumable(u, w) && w.pagesFetched < u.MaxPages() && !w.exhausted
    requires u.fetches[w.pagesFetched].fails ==> exhausted
    ensures Resumable(u, w.(pagesFetched := w.pagesFetched + 1, exhausted := exhausted))
  {
  }

  lemma FetchKeeps(u: PagedLog, w: Window)
    requires u.Valid() && Exact(u, w) && Resumable(u, w)
    requires w.pagesFetched < u.MaxPages() && !w.exhausted
    ensures Exact(u, Fetched(u, w)) && Resumable(u, Fetched(u, w))
  {
    hide Resumable, HoldsPages, OnlyRead, Attained, AllIn;
    var n := w.pagesFetched;
    if u.fetches[n].fails || u.Page(n) == [] {
      if !u.fetches[n].fails { EmptyIsIn(u.Page(n), w.logs); }
      SamePagesKeepExact(u, w);
      SamePagesKeepResumable(u, w, true);
      assert Exact(u, w.(pagesFetched := n + 1, exhausted := true));
    } else if w.lastKey == Some(u.Page(n)[0].Key()) {
      SkippedPageIsKnown(u, w);
      SamePagesKeepExact(u, w);
      SamePagesKeepResumable(u, w, false);
      assert w.(pagesFetched := n + 1) == w.(pagesFetched := n + 1, exhausted := false);
    } else {
      AppendKeepsExact(u, w);
      AppendKeepsResumable(u, w);
    }
  }

  lemma EmptyIsIn(part: seq<Log>, logs: seq<Log>)
    requires part == []
    ensures AllIn(part, logs)
  {
  }

  lemma {:induction false} EnsureKeeps(u: PagedLog, w: Window, target: Time, stopBefore: nat)
    requires u.Valid() && Exact(u, w) && Resumable(u, w)
    ensures var r := Ensured(u, w, target, stopBefore);
            Exact(u, r) && Resumable(u, r)
    decreases u.MaxPages() - w.pagesFetched
  {
    if Covers(w, target) || w.exhausted || w.pagesFetched >= u.MaxPages() || w.pagesFetched >= stopBefore {
    } else {
      FetchKeeps(u, w);
      EnsureKeeps(u, Fetched(u, w), target, stopBefore);
    }
  }

  /** Why a call returned: the time is covered, the upstream has no more (or failed), the page
      budget is spent, or the program is stopping. */
  lemma {:induction false} EnsureEnds(u: PagedLog, w: Window, target: Time, stopBefore: nat)
    requires w.pagesFetched <= u.MaxPages()
    ensures var r := Ensured(u, w, target, stopBefore);
            && w.pagesFetched <= r.pagesFetched <= u.MaxPages()
            && (Covers(r, target) || r.exhausted || r.pagesFetched == u.MaxPages() || r.pagesFetched >= stopBefore)
    decreases u.MaxPages() - w.pagesFetched
  {
    if Covers(w, target) || w.exhausted || w.pagesFetched >= u.MaxPages() || w.pagesFetched >= stopBefore {
    } else {
      EnsureEnds(u, Fetched(u, w), target, stopBefore);
    }
  }

  /** A window is exhausted because the last page it asked for failed or was empty. */
  ghost predicate EndsRightly(u: PagedLog, w: Window) {
    w.exhausted ==> 0 < w.pagesFetched <= u.MaxPages() && Ends(u, w.pagesFetched - 1)
  }

  /** The page cannot be read, or nothing is on it. */
  predicate Ends(u: PagedLog, page: nat)
    requires page < u.MaxPages()
  {
    u.fetches[page].fails || u.Page(page) == []
  }

  lemma {:induction false} EnsureEndsRightly(u: PagedLog, w: Window, target: Time, stopBefore: nat)
    requires EndsRightly(u, w)
    ensures EndsRightly(u, Ensured(u, w, target, stopBefore))
    decreases u.MaxPages() - w.pagesFetched
  {
    if Covers(w, target) || w.exhausted || w.pagesFetched >= u.MaxPages() || w.pagesFetched >= stopBefore {
    } else {
      EnsureEndsRightly(u, Fetched(u, w), target, stopBefore);
    }
  }

  /** No page in front of the next one ended the reading, unless the window says so. */
  ghost predicate GoesOn(u: PagedLog, w: Window) {
    !w.exhausted ==> w.pagesFetched <= u.MaxPages() && forall p :: 0 <= p < w.pagesFetched ==> !Ends(u, p)
  }

  lemma {:induction false} EnsureGoesOn(u: PagedLog, w: Window, target: Time, stopBefore: nat)
    requires GoesOn(u, w)
    ensures GoesOn(u, Ensured(u, w, target, stopBefore))
    decreases u.MaxPages() - w.pagesFetched
  {
    if Covers(w, target) || w.exhausted || w.pagesFetched >= u.MaxPages() || w.pagesFetched >= stopBefore {
    } else {
      EnsureGoesOn(u, Fetched(u, w), target, stopBefore);
    }
  }

  // ---------------------------------------------------------------------------------------
  // The window and the upstream's history as of the first read
  // ---------------------------------------------------------------------------------------

  /** Successive pages leave no gap in front of the next one. */
  lemma ReachesNext(u: PagedLog, n: nat)
    requires u.Valid() && n < u.MaxPages()
    ensures u.Start(n) <= Reach(u, n)
  {
    if n > 0 {
      NoGap(u, n);
    }
  }

  lemma {:induction false} PagesHoldPrefix(u: PagedLog, logs: seq<Log>, n: nat, i: nat)
    requires u.Valid() && 0 < u.MaxPages() && n <= u.MaxPages()
    requires HoldsPages(u, n, logs)
    requires forall p :: 0 <= p < n ==> !u.fetches[p].fails
    requires First(u) <= i < Reach(u, n) && i < |u.all|
    ensures u.all[i] in logs
  {
    if i < Reach(u, n - 1) {
      PagesHoldPrefix(u, logs, n - 1, i);
    } else {
      ReachesNext(u, n - 1);
      assert u.Page(n - 1)[i - u.Start(n - 1)] == u.all[i];
      assert AllIn(u.Page(n - 1), logs);
    }
  }

  /** The window after a run of `Ensure` calls in one round. */
  function AfterCalls(u: PagedLog, calls: seq<(Time, nat)>): Window {
    if calls == [] then NO_WINDOW
    else
      var last := calls[|calls| - 1];
      Ensured(u, AfterCalls(u, calls[..|calls| - 1]), last.0, last.1)
  }

  lemma {:induction false} WindowIsExact(u: PagedLog, calls: seq<(Time, nat)>)
    requires u.Valid()
    ensures Exact(u, AfterCalls(u, calls)) && Resumable(u, AfterCalls(u, calls))
  {
    if calls != [] {
      var last := calls[|calls| - 1];
      WindowIsExact(u, calls[..|calls| - 1]);
      EnsureKeeps(u, AfterCalls(u, calls[..|calls| - 1]), last.0, last.1);
    }
  }

  lemma {:induction false} WindowGoesOn(u: PagedLog, calls: seq<(Time, nat)>)
    ensures GoesOn(u, AfterCalls(u, calls)) && EndsRightly(u, AfterCalls(u, calls))
    ensures AfterCalls(u, calls).pagesFetched <= u.MaxPages()
  {
    if calls != [] {
      var last, mid := calls[|calls| - 1], AfterCalls(u, calls[..|calls| - 1]);
      WindowGoesOn(u, calls[..|calls| - 1]);
      EnsureGoesOn(u, mid, last.0, last.1);
      EnsureEndsRightly(u, mid, last.0, last.1);
      EnsureEnds(u, mid, last.0, last.1);
    }
  }

  /** A page that fails or is empty is the last one asked for in the round, whatever later rows need. */
  lemma {:induction false} EndedForGood(u: PagedLog, calls: seq<(Time, nat)>, more: seq<(Time, nat)>, page: nat)
    requires page < AfterCalls(u, calls).pagesFetched <= u.MaxPages() && Ends(u, page)
    ensures AfterCalls(u, calls + more) == AfterCalls(u, calls) && page == AfterCalls(u, calls).pagesFetched - 1
  {
    WindowGoesOn(u, calls);
    EndedOnce(u, calls, page);
    if more == [] {
      assert calls + more == calls;
    } else {
      EndedForGood(u, calls, more[..|more| - 1], page);
      assert (calls + more)[..|calls + more| - 1] == calls + more[..|more| - 1];
    }
  }

  /** Pages in front of the last one asked for did not end the reading. */
  lemma {:induction false} EndedOnce(u: PagedLog, calls: seq<(Time, nat)>, page: nat)
    requires page < AfterCalls(u, calls).pagesFetched <= u.MaxPages() && Ends(u, page)
    ensures page == AfterCalls(u, calls).pagesFetched - 1 && AfterCalls(u, calls).exhausted
  {
    var last, before := calls[|calls| - 1], AfterCalls(u, calls[..|calls| - 1]);
    WindowGoesOn(u, calls[..|calls| - 1]);
    if page < before.pagesFetched {
      EndedOnce(u, calls[..|calls| - 1], page);
    } else {
      CallEndsOnce(u, before, last.0, last.1, page);
    }
  }

  lemma {:induction false} CallEndsOnce(u: PagedLog, w: Window, target: Time, stopBefore: nat, page: nat)
    requires w.pagesFetched <= page < Ensured(u, w, target, stopBefore).pagesFetched <= u.MaxPages() && Ends(u, page)
    ensures var r := Ensured(u, w, target, stopBefore); page == r.pagesFetched - 1 && r.exhausted
    decreases u.MaxPages() - w.pagesFetched
  {
    if page == w.pagesFetched {
      assert Fetched(u, w).exhausted;
    } else {
      CallEndsOnce(u, Fetched(u, w), target, stopBefore, page);
    }
  }

  /** The number of pages that arrived. */
  function PagesRead(u: PagedLog, w: Window): nat
    requires w.pagesFetched <= u.MaxPages()
  {
    if w.pagesFetched > 0 && u.fetches[w.pagesFetched - 1].fails then w.pagesFetched - 1 else w.pagesFetched
  }

  /** The window always holds a contiguous newest-first stretch of the history as of the first
      read, however many logs arrived in between and whether or not page 1 repeated page 0. */
  lemma WindowHoldsPrefix(u: PagedLog, calls: seq<(Time, nat)>, i: nat)
    requires u.Valid() && u.MaxPages() > 0
    ensures AfterCalls(u, calls).pagesFetched <= u.MaxPages()
    ensures var w := AfterCalls(u, calls);
            First(u) <= i < Reach(u, PagesRead(u, w)) && i < |u.all| ==> u.all[i] in w.logs
  {
    WindowIsExact(u, calls);
    var w := AfterCalls(u, calls);
    if First(u) <= i < Reach(u, PagesRead(u, w)) && i < |u.all| {
      PagesHoldPrefix(u, w.logs, PagesRead(u, w), i);
    }
  }

  lemma ReachesPage(u: PagedLog, p: nat, n: nat, log: Log)
    requires u.Valid() && u.MaxPages() > 0 && p < n <= u.MaxPages()
    requires OnPage(u, p, log)
    ensures exists i :: 0 <= i < |u.all| && i < Reach(u, n) && u.all[i] == log
  {
    ReachGrows(u, p + 1, n);
    var j :| 0 <= j < |u.Page(p)| && u.Page(p)[j] == log;
    assert u.all[u.Start(p) + j] == log;
  }

  /** Every log of the history as of the first read that is strictly later than `target` is in the
      window. */
  ghost predicate Complete(u: PagedLog, w: Window, target: Time)
    requires u.MaxPages() > 0
  {
    forall i :: First(u) <= i < |u.all| && u.all[i].created.Some? && target < u.all[i].created.value ==>
      u.all[i] in w.logs
  }

  /** A log that was read lies within the reach of the pages. */
  lemma ReadWithinReach(u: PagedLog, w: Window, log: Log)
    requires u.Valid() && 0 < u.MaxPages() && w.pagesFetched <= u.MaxPages() && Resumable(u, w)
    requires WasRead(u, w.pagesFetched, log)
    ensures exists i :: 0 <= i < |u.all| && i < Reach(u, PagesRead(u, w)) && u.all[i] == log
  {
    var p :| 0 <= p < w.pagesFetched && OnPage(u, p, log);
    ReachesPage(u, p, PagesRead(u, w), log);
  }

  lemma OldestIndex(u: PagedLog, w: Window) returns (j: nat)
    requires u.Valid() && 0 < u.MaxPages() && Exact(u, w) && Resumable(u, w) && w.oldest.Some?
    ensures j < |u.all| && j < Reach(u, PagesRead(u, w)) && u.all[j].created == w.oldest
  {
    var k :| 0 <= k < |w.logs| && w.logs[k].created == w.oldest;
    assert WasRead(u, w.pagesFetched, w.logs[k]);
    ReadWithinReach(u, w, w.logs[k]);
    j :| 0 <= j < |u.all| && j < Reach(u, PagesRead(u, w)) && u.all[j] == w.logs[k];
  }

  /** Only the last page can have failed, so the pages read all arrived. */
  lemma PagesReadArrived(u: PagedLog, w: Window)
    requires w.pagesFetched <= u.MaxPages() && Resumable(u, w) && HoldsPages(u, w.pagesFetched, w.logs)
    ensures forall p :: 0 <= p < PagesRead(u, w) ==> !u.fetches[p].fails
    ensures HoldsPages(u, PagesRead(u, w), w.logs)
  {
  }

  lemma CoveredHolds(u: PagedLog, w: Window, target: Time)
    requires u.Valid() && 0 < u.MaxPages() && Exact(u, w) && Resumable(u, w) && Covers(w, target)
    ensures Complete(u, w, target)
  {
    PagesReadArrived(u, w);
    var j := OldestIndex(u, w);
    hide Resumable, HoldsPages, OnlyRead, Attained, Reach;
    forall i | First(u) <= i < |u.all| && u.all[i].created.Some? && target < u.all[i].created.value
      ensures u.all[i] in w.logs
    {
      NewerComesFirst(u, i, j);
      PagesHoldPrefix(u, w.logs, PagesRead(u, w), i);
    }
  }

  lemma NewerComesFirst(u: PagedLog, i: nat, j: nat)
    requires u.Valid() && i < |u.all| && j < |u.all|
    requires u.all[i].created.Some? && u.all[j].created.Some?
    requires u.all[j].created.value < u.all[i].created.value
    ensures i < j
  {
  }

  /** A window that covers the target misses nothing later than it: the paged index agrees with a
      full scan. */
  lemma CoveredMeansComplete(u: PagedLog, calls: seq<(Time, nat)>, target: Time)
    requires u.Valid() && u.MaxPages() > 0
    requires Covers(AfterCalls(u, calls), target)
    ensures Complete(u, AfterCalls(u, calls), target)
  {
    WindowIsExact(u, calls);
    CoveredHolds(u, AfterCalls(u, calls), target);
  }

  /** An empty page means the whole history as of the first read is in the window. */
  lemma EmptyPageMeansComplete(u: PagedLog, calls: seq<(Time, nat)>, p: nat, i: nat)
    requires u.Valid() && p < AfterCalls(u, calls).pagesFetched <= u.MaxPages()
    requires !u.fetches[p].fails && u.Page(p) == []
    requires First(u) <= i < |u.all|
    ensures u.all[i] in AfterCalls(u, calls).logs
  {
    WindowIsExact(u, calls);
    var w := AfterCalls(u, calls);
    ReachesNext(u, p);
    assert u.Start(p) == |u.all|;
    PagesHoldPrefix(u, w.logs, p, i);
  }

  /** Every log of the history as of the first read that the match window admits, the ones exactly at
      the target included, is in the window. */
  ghost predicate CompleteFrom(u: PagedLog, w: Window, target: Time)
    requires u.MaxPages() > 0
  {
    forall i :: First(u) <= i < |u.all| && u.all[i].created.Some? && target <= u.all[i].created.value ==>
      u.all[i] in w.logs
  }

  /** No log behind the pages read is exactly at the target. */
  ghost predicate NoneBehindAt(u: PagedLog, reach: nat, target: Time) {
    forall i :: reach <= i < |u.all| ==> u.all[i].created != Some(target)
  }

  /** A log behind the reach of the pages is not in the window. */
  lemma BehindReachIsOut(u: PagedLog, w: Window, i: nat)
    requires u.Valid() && 0 < u.MaxPages() && Exact(u, w) && Resumable(u, w)
    requires Reach(u, PagesRead(u, w)) <= i < |u.all|
    ensures u.all[i] !in w.logs
  {
    if u.all[i] in w.logs {
      var k :| 0 <= k < |w.logs| && w.logs[k] == u.all[i];
      assert WasRead(u, w.pagesFetched, w.logs[k]);
      ReadWithinReach(u, w, w.logs[k]);
    }
  }

  /** The bound of a covered window is strict: it is complete down to the target itself, exactly if no
      log behind the pages read is at the target. */
  lemma CompleteFromIff(u: PagedLog, calls: seq<(Time, nat)>, target: Time)
    requires u.Valid() && u.MaxPages() > 0
    requires Covers(AfterCalls(u, calls), target)
    ensures AfterCalls(u, calls).pagesFetched <= u.MaxPages()
    ensures var w := AfterCalls(u, calls);
            CompleteFrom(u, w, target) <==> NoneBehindAt(u, Reach(u, PagesRead(u, w)), target)
  {
    WindowIsExact(u, calls);
    var w := AfterCalls(u, calls);
    hide AfterCalls;
    CompleteFromWindowIff(u, w, target);
  }

  lemma CompleteFromWindowIff(u: PagedLog, w: Window, target: Time)
    requires u.Valid() && u.MaxPages() > 0 && Exact(u, w) && Resumable(u, w) && Covers(w, target)
    ensures CompleteFrom(u, w, target) <==> NoneBehindAt(u, Reach(u, PagesRead(u, w)), target)
  {
    CoveredHolds(u, w, target);
    PagesReadArrived(u, w);
    ReachGrows(u, 0, PagesRead(u, w));
    hide Resumable, HoldsPages, OnlyRead, Attained, Reach, Exact;
    var reach := Reach(u, PagesRead(u, w));
    if CompleteFrom(u, w, target) {
      forall i | reach <= i < |u.all| ensures u.all[i].created != Some(target) {
        BehindReachIsOut(u, w, i);
      }
    }
    if NoneBehindAt(u, reach, target) {
      forall i | First(u) <= i < |u.all| && u.all[i].created == Some(target) ensures u.all[i] in w.logs {
        PagesHoldPrefix(u, w.logs, PagesRead(u, w), i);
      }
    }
  }

  // ---------------------------------------------------------------------------------------
  // The first call of a round, while nothing arrives and no page fails
  // ---------------------------------------------------------------------------------------

  /** All logs in front of `c` are later than the target, the others are not. */
  ghost predicate Splits(all: seq<Log>, target: Time, c: nat) {
    && c <= |all| && (forall i :: 0 <= i < |all| ==> all[i].created.Some?)
    && (forall i :: 0 <= i < |all| ==> (target < all[i].created.value <==> i < c))
  }

  lemma ReadIsHeld(u: PagedLog, w: Window, log: Log)
    requires Exact(u, w) && WasRead(u, w.pagesFetched, log)
    ensures log in w.logs
  {
    var p :| 0 <= p < w.pagesFetched && OnPage(u, p, log);
    var j :| 0 <= j < |u.Page(p)| && u.Page(p)[j] == log;
    assert AllIn(u.Page(p), w.logs);
  }

  lemma HeldWasRead(u: PagedLog, w: Window, log: Log)
    requires Exact(u, w) && log in w.logs
    ensures WasRead(u, w.pagesFetched, log)
  {
    var k :| 0 <= k < |w.logs| && w.logs[k] == log;
  }

  lemma ValidHasNoRepeats(u: PagedLog)
    requires u.Valid()
    ensures NoRepeats(u.all)
  {
    forall i, j | 0 <= i < j < |u.all| ensures u.all[i] != u.all[j] {
      assert u.all[i].Key() != u.all[j].Key();
    }
  }

  lemma QuietHolds(u: PagedLog, w: Window, i: nat)
    requires u.Valid() && u.Quiet() && Exact(u, w) && i < |u.all|
    ensures u.all[i] in w.logs <==> i < u.Span(w.pagesFetched)
  {
    ValidHasNoRepeats(u);
    hide WasRead, HoldsPages, OnlyRead, Attained, NoRepeats;
    QuietReadIff(u, w.pagesFetched, i);
    if u.all[i] in w.logs { HeldWasRead(u, w, u.all[i]); }
    if WasRead(u, w.pagesFetched, u.all[i]) { ReadIsHeld(u, w, u.all[i]); }
  }

  lemma QuietCoversIff(u: PagedLog, w: Window, target: Time, c: nat)
    requires u.Valid() && u.Quiet() && Exact(u, w) && Splits(u.all, target, c)
    ensures Covers(w, target) <==> c < |u.all| && c < u.Span(w.pagesFetched)
  {
    if Covers(w, target) {
      var k :| 0 <= k < |w.logs| && w.logs[k].created == w.oldest;
      assert WasRead(u, w.pagesFetched, w.logs[k]);
      var m := PlaceOf(u, w.pagesFetched, w.logs[k]);
      QuietHolds(u, w, m);
      assert u.all[m] in w.logs;
    }
    if c < |u.all| && c < u.Span(w.pagesFetched) {
      QuietHolds(u, w, c);
      var k :| 0 <= k < |w.logs| && w.logs[k] == u.all[c];
    }
  }

  /** How far the call has come, or where it ended: no page was read once the target was covered. */
  ghost predicate Underway(u: PagedLog, w: Window, c: nat) {
    && (w.pagesFetched > 0 ==> c == |u.all| || u.Span(w.pagesFetched - 1) <= c)
    && (w.exhausted ==> |u.all| <= u.Span(w.pagesFetched))
  }

  lemma QuietFetch(u: PagedLog, w: Window, c: nat)
    requires u.Quiet() && w.pagesFetched < u.MaxPages() && !w.exhausted
    requires c == |u.all| || u.Span(w.pagesFetched) <= c
    ensures Underway(u, Fetched(u, w), c)
  {
    SpanStep(u, w.pagesFetched);
  }

  lemma {:induction false} QuietEnsured(u: PagedLog, w: Window, target: Time, stopBefore: nat, c: nat)
    requires u.Valid() && u.Quiet() && Splits(u.all, target, c) && Exact(u, w) && Resumable(u, w)
    requires Underway(u, w, c) && w.pagesFetched <= ReadLimit(u, stopBefore)
    ensures var r := Ensured(u, w, target, stopBefore);
            && Exact(u, r) && Underway(u, r, c) && r.pagesFetched <= ReadLimit(u, stopBefore)
            && (Covers(r, target) || r.exhausted || r.pagesFetched == ReadLimit(u, stopBefore))
    decreases u.MaxPages() - w.pagesFetched
  {
    hide Exact, Resumable, Underway, Fetched, Splits;
    if Covers(w, target) || w.exhausted || w.pagesFetched == ReadLimit(u, stopBefore) {
    } else {
      QuietCoversIff(u, w, target, c);
      SplitsBound(u.all, target, c);
      QuietFetch(u, w, c);
      FetchKeeps(u, w);
      FetchesOne(u, w);
      QuietEnsured(u, Fetched(u, w), target, stopBefore, c);
    }
  }

  lemma FetchesOne(u: PagedLog, w: Window)
    requires w.pagesFetched < u.MaxPages()
    ensures Fetched(u, w).pagesFetched == w.pagesFetched + 1
  {
  }

  lemma SplitsBound(all: seq<Log>, target: Time, c: nat)
    requires Splits(all, target, c)
    ensures c <= |all|
  {
  }

  /** The window lists the newest logs, each once and in order, as far as its pages reach. */
  ghost predicate ListsPrefix(u: PagedLog, w: Window) {
    && w.logs == u.all[..u.Cut(u.Span(w.pagesFetched))]
    && (w.pagesFetched == 0 ==> w.lastKey.None?)
    && (w.pagesFetched > 0 && !w.exhausted ==>
          var s := u.Offset(w.pagesFetched - 1); s < |u.all| && w.lastKey == Some(u.all[s].Key()))
  }

  lemma FetchKeepsPrefix(u: PagedLog, w: Window)
    requires u.Valid() && u.Quiet() && w.pagesFetched < u.MaxPages() && !w.exhausted && ListsPrefix(u, w)
    ensures ListsPrefix(u, Fetched(u, w))
  {
    var n := w.pagesFetched;
    SpanStep(u, n);
    assert u.Start(n) == u.Cut(u.Offset(n));
    if u.Page(n) != [] {
      assert u.Offset(n) < |u.all| && u.Page(n)[0] == u.all[u.Offset(n)];
      if n > 0 {
        SameOrNextPage(u, n);
        assert w.lastKey == Some(u.Page(n)[0].Key()) <==> u.Offset(n) == u.Offset(n - 1);
      }
    }
  }

  /** Page 1 repeats page 0 where the upstream clamps; every other page starts where the last ended. */
  lemma SameOrNextPage(u: PagedLog, n: nat)
    requires n > 0
    ensures if u.clamped && n == 1 then u.Offset(n) == u.Offset(n - 1) && u.Span(n + 1) == u.Span(n)
            else u.Offset(n) == u.Span(n)
  {
    assert n * u.pageSize == (n - 1) * u.pageSize + u.pageSize;
    if u.clamped && n > 1 { assert (n - 1) * u.pageSize == (n - 2) * u.pageSize + u.pageSize; }
  }

  lemma {:induction false} EnsureKeepsPrefix(u: PagedLog, w: Window, target: Time, stopBefore: nat)
    requires u.Valid() && u.Quiet() && ListsPrefix(u, w)
    ensures ListsPrefix(u, Ensured(u, w, target, stopBefore))
    decreases u.MaxPages() - w.pagesFetched
  {
    hide ListsPrefix, Fetched;
    if Covers(w, target) || w.exhausted || w.pagesFetched >= u.MaxPages() || w.pagesFetched >= stopBefore {
    } else {
      FetchKeepsPrefix(u, w);
      FetchesOne(u, w);
      EnsureKeepsPrefix(u, Fetched(u, w), target, stopBefore);
    }
  }

  /** After any calls the window lists exactly the newest logs, each once and newest first. */
  lemma {:induction false} QuietWindowIsPrefix(u: PagedLog, calls: seq<(Time, nat)>)
    requires u.Valid() && u.Quiet()
    ensures var w := AfterCalls(u, calls); w.logs == u.all[..u.Cut(u.Span(w.pagesFetched))]
    ensures ListsPrefix(u, AfterCalls(u, calls))
  {
    if calls != [] {
      var last := calls[|calls| - 1];
      QuietWindowIsPrefix(u, calls[..|calls| - 1]);
      EnsureKeepsPrefix(u, AfterCalls(u, calls[..|calls| - 1]), last.0, last.1);
    }
  }

  /** How many pages the first call asks for, `c` logs being later than its target. */
  function PagesFor(u: PagedLog, stopBefore: nat, c: nat): nat
    requires u.pageSize > 0
  {
    if PagesNeeded(u, c) < ReadLimit(u, stopBefore) then PagesNeeded(u, c) else ReadLimit(u, stopBefore)
  }

  lemma PagesForIff(u: PagedLog, stopBefore: nat, c: nat, r: nat)
    requires u.pageSize > 0 && c <= |u.all| && r <= ReadLimit(u, stopBefore)
    requires r > 0 ==> c == |u.all| || u.Span(r - 1) <= c
    requires (c < |u.all| && c < u.Span(r)) || |u.all| <= u.Span(r) || r == ReadLimit(u, stopBefore)
    ensures var n := PagesFor(u, stopBefore, c);
            r == n || (c == |u.all| && c <= u.Span(r) && c <= u.Span(n))
  {
    var n := PagesFor(u, stopBefore, c);
    PagesNeededIff(u, c, r);
    if r > 0 { PagesNeededIff(u, c, r - 1); }
    if c == |u.all| {
      PagesNeededIff(u, c, n);
      if n == ReadLimit(u, stopBefore) { SpanGrows(u, r, n); }
    }
  }

  /** The first log behind these pages, if there is one, is older than the target. */
  predicate OlderBehind(u: PagedLog, pages: nat, target: Time) {
    u.Span(pages) < |u.all| ==>
      u.all[u.Span(pages)].created.Some? && u.all[u.Span(pages)].created.value < target
  }

  lemma NothingBehind(u: PagedLog, pages: nat, target: Time)
    requires |u.all| <= u.Span(pages)
    ensures OlderBehind(u, pages, target)
  {
  }

  /** The first call reads the pages it needs and no more.  It misses nothing down to its target itself,
      exactly if the first log behind them is older than the target. */
  lemma FirstCallCompleteIff(u: PagedLog, target: Time, stopBefore: nat, c: nat)
    requires u.Valid() && u.Quiet() && u.MaxPages() > 0 && Splits(u.all, target, c)
    ensures var w, n := Ensured(u, NO_WINDOW, target, stopBefore), PagesFor(u, stopBefore, c);
            && (c < |u.all| ==> w.pagesFetched == n)
            && (Covers(w, target) <==> c < |u.all| && c < u.Span(n))
            && (CompleteFrom(u, w, target) <==> OlderBehind(u, n, target))
  {
    FirstCallEnds(u, target, stopBefore, c);
    var w, n := Ensured(u, NO_WINDOW, target, stopBefore), PagesFor(u, stopBefore, c);
    hide Ensured, PagesFor, Splits, Underway, OlderBehind, Covers, Exact;
    QuietCoversIff(u, w, target, c);
    QuietCompleteFromIff(u, w, target, c);
    hide CompleteFrom;
    if w.pagesFetched != n {
      NothingBehind(u, n, target);
      NothingBehind(u, w.pagesFetched, target);
    }
  }

  lemma FirstCallEnds(u: PagedLog, target: Time, stopBefore: nat, c: nat)
    requires u.Valid() && u.Quiet() && u.MaxPages() > 0 && Splits(u.all, target, c)
    ensures var w, n := Ensured(u, NO_WINDOW, target, stopBefore), PagesFor(u, stopBefore, c);
            && Exact(u, w) && c <= |u.all|
            && (w.pagesFetched == n || (c == |u.all| && c <= u.Span(w.pagesFetched) && c <= u.Span(n)))
  {
    EmptyWindowOk(u);
    NotYetUnderway(u, c);
    hide Exact, Resumable, PagesFor, Covers, Splits, Underway, Ensured;
    QuietEnsured(u, NO_WINDOW, target, stopBefore, c);
    SplitsBound(u.all, target, c);
    var w := Ensured(u, NO_WINDOW, target, stopBefore);
    QuietCoversIff(u, w, target, c);
    EndsWhere(u, w, stopBefore, c);
  }

  lemma NotYetUnderway(u: PagedLog, c: nat)
    ensures Underway(u, NO_WINDOW, c)
  {
  }

  lemma EndsWhere(u: PagedLog, w: Window, stopBefore: nat, c: nat)
    requires u.pageSize > 0 && c <= |u.all| && Underway(u, w, c) && w.pagesFetched <= ReadLimit(u, stopBefore)
    requires (c < |u.all| && c < u.Span(w.pagesFetched)) || w.exhausted || w.pagesFetched == ReadLimit(u, stopBefore)
    ensures var n := PagesFor(u, stopBefore, c);
            w.pagesFetched == n || (c == |u.all| && c <= u.Span(w.pagesFetched) && c <= u.Span(n))
  {
    PagesForIff(u, stopBefore, c, w.pagesFetched);
  }

  lemma EmptyWindowOk(u: PagedLog)
    ensures Exact(u, NO_WINDOW) && Resumable(u, NO_WINDOW) && EndsRightly(u, NO_WINDOW)
  {
  }

  lemma QuietCompleteFromIff(u: PagedLog, w: Window, target: Time, c: nat)
    requires u.Valid() && u.Quiet() && u.MaxPages() > 0 && Exact(u, w) && Splits(u.all, target, c)
    ensures CompleteFrom(u, w, target) <==> OlderBehind(u, w.pagesFetched, target)
  {
    forall i | 0 <= i < |u.all| ensures u.all[i] in w.logs <==> i < u.Span(w.pagesFetched) {
      QuietHolds(u, w, i);
    }
  }

  // ---------------------------------------------------------------------------------------
  // A log at the target that is missed, at the program's own page size
  // ---------------------------------------------------------------------------------------

  const NEWAPI_PAGE_SIZE := 100
  const NEWAPI_MAX_PAGES := 10

  function BusySecond(n: nat): seq<Log> {
    seq(n, i requires 0 <= i < n => Log(Some(n - i), Some(5), "m", 1, 1, None))
  }

  /** 101 logs of one second: the first page covers the target, and the oldest log is missed. */
  lemma LogAtTargetCanBeMissed() returns (u: PagedLog)
    ensures u.Valid() && u.pageSize == 100 && u.MaxPages() == 10
    ensures var w := AfterCalls(u, [(5, NEWAPI_MAX_PAGES)]);
            Covers(w, 5) && !CompleteFrom(u, w, 5)
  {
    var all := BusySecond(NEWAPI_PAGE_SIZE + 1);
    u := PagedLog(all, seq(NEWAPI_MAX_PAGES, _ => Fetch(0, false)), false, NEWAPI_PAGE_SIZE);
    assert forall i, j :: 0 <= i < j < |all| ==> all[i].id != all[j].id;
    assert [(5, NEWAPI_MAX_PAGES)][..0] == [];
    hide Ensured, Covers, CompleteFrom;
    FirstCallCompleteIff(u, 5, NEWAPI_MAX_PAGES, 0);
  }
}
