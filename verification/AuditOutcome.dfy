/** What auditing one row comes to: how far it pages the upstream's log, which log it takes, and which
    grey state it leaves the row in otherwise. */
module AuditOutcome {

  import opened Options
  import opened LogWindow
  import opened Paging
  import opened AuditMatching
  import opened AuditTheorems

  /** The log could be the request's: same model and tokens, at most the window's length away. */
  predicate Fits(row: Check, requestAt: Time, windowSeconds: nat, log: Log) {
    && log.modelName == row.modelName
    && log.promptTokens == row.promptTokens && log.completionTokens == row.completionTokens
    && (row.cacheRead.None? || log.cacheRead.None? || row.cacheRead.value == log.cacheRead.value)
    && log.created.Some?
    && requestAt - windowSeconds * 1_000_000 <= log.created.value <= requestAt + windowSeconds * 1_000_000
  }

  /** No row of this round took the log from this context, and no earlier row holds one of the site with
      its id and about its time. */
  ghost predicate Unspent(g: Round, ctx: Context, log: Log) {
    && log.id.Some? && log.id.value !in ctx.used
    && (ctx.site.Some? ==>
          forall reference :: reference in Lookup(g.used, ctx.site.value.id, log.id.value) ==>
            && reference.Some? && log.created.Some?
            && (log.created.value < reference.value - g.windowSeconds * 1_000_000
                || reference.value + g.windowSeconds * 1_000_000 < log.created.value))
  }

  lemma EligibleIff(g: Round, ctx: Context, row: Check, requestAt: Time, log: Log)
    ensures Eligible(g, ctx, row, requestAt, log) <==> Fits(row, requestAt, g.windowSeconds, log) && Unspent(g, ctx, log)
  {
    if ctx.site.Some? && log.id.Some? {
      var references := Lookup(g.used, ctx.site.value.id, log.id.value);
      if Consumed(g.used, ctx.site.value.id, log.id.value, log.created, g.windowSeconds) {
        var k :| 0 <= k < |references| && Hits(references[k], log.created, g.windowSeconds);
        assert references[k] in references;
      } else {
        forall reference | reference in references ensures !Hits(reference, log.created, g.windowSeconds) {
          var k :| 0 <= k < |references| && references[k] == reference;
        }
      }
    }
  }

  /** The row holds this log of this site, and the log's time is known as given: its own, or else that of
      the request. */
  predicate Holds(c: Check, site: nat, log: nat, reference: Option<Time>) {
    && c.site == Some(site) && c.logId == Some(log)
    && (c.logAt.Some? ==> reference == c.logAt)
    && (c.logAt.None? ==> reference == c.requestAt)
  }

  /** What is kept out of a round are the logs the earlier rows hold, each under its own site and id and
      with its own time, and no others; zero is no id. */
  lemma {:induction false} ReferencedIff(rows: seq<Check>, site: nat, log: nat, reference: Option<Time>)
    ensures reference in ReferencesOf(rows, site, log)
      <==> site > 0 && log > 0 && exists k :: 0 <= k < |rows| && Holds(rows[k], site, log, reference)
  {
    if rows != [] {
      var n := |rows| - 1;
      ReferencedIff(rows[..n], site, log, reference);
      assert rows == rows[..n] + [rows[n]];
      assert (exists k :: 0 <= k < |rows| && Holds(rows[k], site, log, reference))
        <==> Holds(rows[n], site, log, reference)
             || exists k :: 0 <= k < n && Holds(rows[..n][k], site, log, reference);
    }
  }

  /** The row has a channel bound to an upstream. */
  predicate Bound(g: Round, row: Check) {
    row.channel.Some? && row.channel.value in g.links
  }

  /** The site of the row's upstream, as the round first met it. */
  function SiteOf(g: Round, st: State, row: Check): Option<SiteRow>
    requires Bound(g, row)
  {
    var link := g.links[row.channel.value];
    if link.base in st.contexts then st.contexts[link.base].site else link.site
  }

  /** Its logs can be read, and the row says when its request was. */
  predicate Auditable(g: Round, st: State, row: Check) {
    Bound(g, row) && SiteOf(g, st, row).Some? && SiteOf(g, st, row).value.authReady
    && SiteOf(g, st, row).value.hasLogApi && row.requestAt.Some?
  }

  /** What auditing leaves a row in, and that it leaves the request's own columns alone. */
  lemma RowOutcome(g: Round, st: State, id: nat)
    requires g.Valid() && id in st.checks
    ensures var row, r := st.checks[id], Audited(g, st, id, None).checks[id];
            && (r.matching.NoBinding? <==> !Bound(g, row))
            && (r.matching.NoToken? <==>
                  Bound(g, row) && (SiteOf(g, st, row).None? || !SiteOf(g, st, row).value.authReady))
            && (r.matching.NoLogApi? <==>
                  Bound(g, row) && SiteOf(g, st, row).Some? && SiteOf(g, st, row).value.authReady
                  && !SiteOf(g, st, row).value.hasLogApi)
            && (r.matching.Matched? ==> Auditable(g, st, row))
            && r.checkedAt == Some(g.now)
            && r == row.(matching := r.matching, checkedAt := r.checkedAt, site := r.site, logId := r.logId,
                         logAt := r.logAt)
            && (!r.matching.Matched? ==> r.logId == row.logId && r.logAt == row.logAt)
            && r.site == if Bound(g, row) && SiteOf(g, st, row).Some? && SiteOf(g, st, row).value.authReady
                            && SiteOf(g, st, row).value.hasLogApi
                         then (if SiteOf(g, st, row).value.id > 0 then Some(SiteOf(g, st, row).value.id) else None)
                         else row.site
  {
    hide Best, Ensured;
  }

  // ---------------------------------------------------------------------------------------
  // How far the log is paged
  // ---------------------------------------------------------------------------------------

  function BaseOf(g: Round, row: Check): Base
    requires Bound(g, row)
  {
    g.links[row.channel.value].base
  }

  /** The context the row is audited in. */
  function ContextFor(g: Round, st: State, row: Check): Context
    requires Bound(g, row)
  {
    if BaseOf(g, row) in st.contexts then st.contexts[BaseOf(g, row)]
    else Context(g.links[row.channel.value].site, NO_WINDOW, {})
  }

  predicate ReachesBack(w: Window, from: Time) {
    w.oldest.Some? && w.oldest.value <= from
  }

  /** The audit as a whole, for a row whose logs can be read. */
  lemma AuditedRowIs(g: Round, st: State, id: nat)
    requires g.Valid() && id in st.checks && Auditable(g, st, st.checks[id])
    ensures var row := st.checks[id];
            var u, ctx := g.upstreams[BaseOf(g, row)], ContextFor(g, st, row);
            var paged := Paged(g, u, ctx, row.requestAt.value, None);
            var best, r := Choice(g, paged, row, row.requestAt.value), Audited(g, st, id, None);
            && BaseOf(g, row) in r.contexts && r.contexts[BaseOf(g, row)] == Taken(paged, best)
            && (r.checks[id].matching.Matched? <==> best.Some?)
            && (best.None? ==> r.checks[id].matching.Unmatched? && r.checks[id].logId == row.logId)
            && (best.Some? ==>
                  && best.value.created.Some? && r.checks[id].logId == best.value.id
                  && r.checks[id].logAt == Some(ToSecond(best.value.created.value))
                  && r.checks[id].site == SiteIdOf(ctx.site.value))
  {
    hide Best, Ensured;
  }

  /** Auditing a row pages until a log is as old as the request less the window, or the upstream has no
      more, or the page budget is spent. */
  lemma AuditPagesFarEnough(g: Round, st: State, id: nat)
    requires g.Valid() && id in st.checks && Auditable(g, st, st.checks[id])
    requires var row := st.checks[id];
             ContextFor(g, st, row).window.pagesFetched <= g.upstreams[BaseOf(g, row)].MaxPages()
    ensures var row, r := st.checks[id], Audited(g, st, id, None);
            BaseOf(g, row) in r.contexts &&
            var w := r.contexts[BaseOf(g, row)].window;
            || ReachesBack(w, row.requestAt.value - g.windowSeconds * 1_000_000)
            || w.exhausted
            || w.pagesFetched == g.upstreams[BaseOf(g, row)].MaxPages()
  {
    var row := st.checks[id];
    var u, ctx := g.upstreams[BaseOf(g, row)], ContextFor(g, st, row);
    AuditedRowIs(g, st, id);
    hide Audited, Choice, Ensured;
    EnsureEnds(u, ctx.window, row.requestAt.value - g.windowSeconds * SECOND, u.MaxPages());
  }

  /** If the program is stopping, the row is left for another time: no page from the given one on is read,
      and no log is taken. */
  lemma StoppedRowWaits(g: Round, st: State, id: nat, page: nat)
    requires g.Valid() && id in st.checks && Auditable(g, st, st.checks[id])
    ensures var row, r := st.checks[id], Audited(g, st, id, Some(page));
            && r.checks == st.checks
            && BaseOf(g, row) in r.contexts
            && var ctx, after := ContextFor(g, st, row), r.contexts[BaseOf(g, row)];
               && after.site == ctx.site && after.used == ctx.used
               && ctx.window.pagesFetched <= after.window.pagesFetched
               && (after.window.pagesFetched <= page || after.window == ctx.window)
  {
    var row := st.checks[id];
    EnsuredReads(g.upstreams[BaseOf(g, row)], ContextFor(g, st, row).window,
                 row.requestAt.value - g.windowSeconds * SECOND, page);
    hide Best, Ensured;
  }

  lemma {:induction false} EnsuredReads(u: PagedLog, w: Window, target: Time, stopBefore: nat)
    ensures var r := Ensured(u, w, target, stopBefore);
            && w.pagesFetched <= r.pagesFetched && (r.pagesFetched <= stopBefore || r == w)
    decreases u.MaxPages() - w.pagesFetched
  {
    if !(Covers(w, target) || w.exhausted || w.pagesFetched >= u.MaxPages() || w.pagesFetched >= stopBefore) {
      EnsuredReads(u, Fetched(u, w), target, stopBefore);
    }
  }

  // ---------------------------------------------------------------------------------------
  // The rows of a round
  // ---------------------------------------------------------------------------------------

  /** A round goes through its rows in order: going on with more rows is as good as having had them at the
      end of the list. */
  lemma {:induction false} RoundGoesOn(g: Round, st: State, rows: seq<nat>, more: seq<nat>)
    requires g.Valid() && (forall id :: id in rows + more ==> id in st.checks)
    ensures forall i :: 0 <= i < |rows| ==> rows[i] in st.checks
    ensures AuditedRound(g, st, rows, None).checks.Keys == st.checks.Keys
    ensures AuditedRound(g, st, rows + more, None)
      == AuditedRound(g, AuditedRound(g, st, rows, None), more, None)
  {
    hide Audited;
    assert forall i :: 0 <= i < |rows| ==> rows[i] == (rows + more)[i];
    if more == [] {
      assert rows + more == rows;
    } else {
      var n := |more| - 1;
      assert (rows + more)[|rows| + n] == more[n];
      assert (rows + more)[..|rows| + n] == rows + more[..n];
      forall id | id in rows + more[..n] ensures id in rows + more {}
      RoundGoesOn(g, st, rows, more[..n]);
    }
  }

  lemma AuditedTouchesOne(g: Round, st: State, id: nat, stop: Option<nat>)
    requires g.Valid() && id in st.checks
    ensures var r := Audited(g, st, id, stop);
            && r.checks.Keys == st.checks.Keys
            && (forall other :: other in st.checks && other != id ==> r.checks[other] == st.checks[other])
            && (stop.None? ==> r.checks[id].checkedAt == Some(g.now))
  {
    hide Best, Ensured;
  }

  /** Every row of the round is audited in it, and no other row is touched. */
  lemma {:induction false} RoundAuditsItsRows(g: Round, st: State, rows: seq<nat>, id: nat)
    requires g.Valid() && id in st.checks && (forall i :: 0 <= i < |rows| ==> rows[i] in st.checks)
    ensures var r := AuditedRound(g, st, rows, None);
            && r.checks.Keys == st.checks.Keys
            && (id in rows ==> r.checks[id].checkedAt == Some(g.now))
            && (id !in rows ==> r.checks[id] == st.checks[id])
  {
    hide Audited;
    if rows != [] {
      var n := |rows| - 1;
      assert rows == rows[..n] + [rows[n]];
      RoundAuditsItsRows(g, st, rows[..n], id);
      AuditedTouchesOne(g, AuditedRound(g, st, rows[..n], None), rows[n], None);
    }
  }

  /** A row met by the stop event is left out of the round if its logs are to be read, and audited like any
      other if not. */
  lemma StoppedRoundIs(g: Round, st: State, rows: seq<nat>, id: nat, page: nat)
    requires g.Valid() && id in st.checks && (forall i :: 0 <= i < |rows| ==> rows[i] in st.checks)
    ensures forall i :: 0 <= i < |rows + [id]| ==> (rows + [id])[i] in st.checks
    ensures var done := AuditedRound(g, st, rows, None);
            var r := AuditedRound(g, st, rows, Some((id, page)));
            && id in done.checks
            && r.checks == if Auditable(g, done, done.checks[id]) then done.checks
                           else AuditedRound(g, st, rows + [id], None).checks
  {
    hide Best, Ensured;
    assert (rows + [id])[..|rows|] == rows;
    var done := AuditedRound(g, st, rows, None);
    if Auditable(g, done, done.checks[id]) {
      StoppedRowWaits(g, done, id, page);
    } else {
      StopMissesRow(g, done, id, page);
    }
  }

  lemma StopMissesRow(g: Round, st: State, id: nat, page: nat)
    requires g.Valid() && id in st.checks && !Auditable(g, st, st.checks[id])
    ensures Audited(g, st, id, Some(page)) == Audited(g, st, id, None)
  {
    hide Best, Ensured;
  }

  // ---------------------------------------------------------------------------------------
  // Which log is taken
  // ---------------------------------------------------------------------------------------

  /** The row got this log of the window: it fits, is unspent, and is the first of the nearest. */
  ghost predicate Got(g: Round, ctx: Context, row: Check, after: Check, logs: seq<Log>, i: nat) {
    && i < |logs| && row.requestAt.Some?
    && Fits(row, row.requestAt.value, g.windowSeconds, logs[i]) && Unspent(g, ctx, logs[i])
    && after.logId == logs[i].id && after.logAt == Some(ToSecond(logs[i].created.value))
    && forall j ::
         0 <= j < |logs| && Fits(row, row.requestAt.value, g.windowSeconds, logs[j]) && Unspent(g, ctx, logs[j]) ==>
           var at := row.requestAt.value;
           var di, dj := Distance(logs[i].created.value, at), Distance(logs[j].created.value, at);
           di <= dj && (j < i ==> di < dj)
  }

  lemma FirstNearestIsGot(g: Round, ctx: Context, row: Check, after: Check, logs: seq<Log>, i: nat)
    requires i < |logs| && row.requestAt.Some? && FirstNearest(g, ctx, row, row.requestAt.value, logs, i)
    requires after.logId == logs[i].id && after.logAt == Some(ToSecond(logs[i].created.value))
    ensures Got(g, ctx, row, after, logs, i)
  {
    EligibleIff(g, ctx, row, row.requestAt.value, logs[i]);
    forall j | 0 <= j < |logs|
      ensures Eligible(g, ctx, row, row.requestAt.value, logs[j]) <==>
        Fits(row, row.requestAt.value, g.windowSeconds, logs[j]) && Unspent(g, ctx, logs[j])
    {
      EligibleIff(g, ctx, row, row.requestAt.value, logs[j]);
    }
    hide Eligible, Fits, Unspent;
  }

  lemma WindowKeepsUnspent(g: Round, ctx: Context, w: Window, log: Log)
    ensures Unspent(g, ctx.(window := w), log) <==> Unspent(g, ctx, log)
  {
  }

  /** A row is matched exactly if some log of its window fits and is unspent; it gets the first of the
      nearest of them, and its context remembers that the log is spent. */
  lemma MatchedIff(g: Round, st: State, id: nat)
    requires g.Valid() && id in st.checks && Auditable(g, st, st.checks[id])
    ensures id in Audited(g, st, id, None).checks
    ensures var row, r := st.checks[id], Audited(g, st, id, None);
            BaseOf(g, row) in r.contexts &&
            var ctx, after := ContextFor(g, st, row), r.contexts[BaseOf(g, row)];
            && after.site == ctx.site
            && (r.checks[id].matching.Matched? <==>
                  exists log :: log in after.window.logs && Fits(row, row.requestAt.value, g.windowSeconds, log)
                    && Unspent(g, ctx, log))
            && (r.checks[id].matching.Matched? ==>
                  && (exists i :: Got(g, ctx, row, r.checks[id], after.window.logs, i))
                  && r.checks[id].logId.Some? && after.used == ctx.used + {r.checks[id].logId.value}
                  && r.checks[id].site == SiteIdOf(ctx.site.value))
            && (r.checks[id].matching.Unmatched? ==> after.used == ctx.used)
  {
    var row := st.checks[id];
    var requestAt := row.requestAt.value;
    var ctx := ContextFor(g, st, row);
    AuditedRowIs(g, st, id);
    var r, paged := Audited(g, st, id, None), Paged(g, g.upstreams[BaseOf(g, row)], ctx, requestAt, None);
    hide Audited, Ensured, Eligible, Fits, Unspent, Best, Got;
    var logs := paged.window.logs;
    var i := BestStands(g, paged, row, requestAt, logs);
    if r.checks[id].matching.Matched? {
      FirstNearestIsGot(g, paged, row, r.checks[id], logs, i);
      EligibleIff(g, paged, row, requestAt, logs[i]);
      WindowKeepsUnspent(g, ctx, paged.window, logs[i]);
      GotInContext(g, ctx, paged.window, row, r.checks[id], logs, i);
    } else {
      forall log | log in logs ensures !(Fits(row, requestAt, g.windowSeconds, log) && Unspent(g, ctx, log)) {
        var j :| 0 <= j < |logs| && logs[j] == log;
        EligibleIff(g, paged, row, requestAt, logs[j]);
        WindowKeepsUnspent(g, ctx, paged.window, logs[j]);
      }
    }
  }

  lemma GotInContext(g: Round, ctx: Context, w: Window, row: Check, after: Check, logs: seq<Log>, i: nat)
    requires Got(g, ctx.(window := w), row, after, logs, i)
    ensures Got(g, ctx, row, after, logs, i)
  {
    forall log ensures Unspent(g, ctx.(window := w), log) <==> Unspent(g, ctx, log) {
      WindowKeepsUnspent(g, ctx, w, log);
    }
    hide Unspent, Fits;
  }

  /** The last page asked for could not be read. */
  predicate LastPageFailed(u: PagedLog, w: Window) {
    0 < w.pagesFetched <= u.MaxPages() && u.fetches[w.pagesFetched - 1].fails
  }

  /** The page budget was spent before the log was paged as far as the row needs. */
  predicate BudgetSpent(u: PagedLog, w: Window, from: Time) {
    w.pagesFetched == u.MaxPages() && !ReachesBack(w, from)
  }

  /** An empty last page means that the window has the whole history as of the first read. */
  lemma EndOfHistory(u: PagedLog, w: Window, i: nat)
    requires u.Valid() && 0 < u.MaxPages() && Exact(u, w) && Resumable(u, w) && EndsRightly(u, w)
    requires w.exhausted && !LastPageFailed(u, w) && First(u) <= i < |u.all|
    ensures u.all[i] in w.logs
  {
    var page := w.pagesFetched - 1;
    ReachesNext(u, page);
    assert u.Page(page) == [] && u.Start(page) == |u.all|;
    PagesHoldPrefix(u, w.logs, page, i);
  }

  lemma InWindow(u: PagedLog, w: Window, from: Time, i: nat)
    requires u.Valid() && 0 < u.MaxPages() && Exact(u, w) && Resumable(u, w) && EndsRightly(u, w)
    requires ReachesBack(w, from) || w.exhausted || w.pagesFetched == u.MaxPages()
    requires First(u) <= i < |u.all| && u.all[i].created.Some? && from < u.all[i].created.value
    ensures u.all[i] in w.logs || LastPageFailed(u, w) || BudgetSpent(u, w, from)
  {
    if ReachesBack(w, from) {
      CoveredHolds(u, w, from);
      assert Complete(u, w, from);
    } else if w.exhausted && !LastPageFailed(u, w) {
      EndOfHistory(u, w, i);
    }
  }

  /** The row got a log that is no further from its request than this one. */
  ghost predicate GotAsNear(g: Round, ctx: Context, row: Check, after: Check, logs: seq<Log>, log: Log)
    requires row.requestAt.Some? && log.created.Some?
  {
    exists k: nat :: Got(g, ctx, row, after, logs, k)
      && Distance(logs[k].created.value, row.requestAt.value) <= Distance(log.created.value, row.requestAt.value)
  }

  lemma GotIsNearest(g: Round, ctx: Context, row: Check, after: Check, logs: seq<Log>, k: nat, log: Log)
    requires Got(g, ctx, row, after, logs, k) && log in logs
    requires Fits(row, row.requestAt.value, g.windowSeconds, log) && Unspent(g, ctx, log)
    ensures GotAsNear(g, ctx, row, after, logs, log)
  {
    var j :| 0 <= j < |logs| && logs[j] == log;
  }

  ghost predicate WindowOk(u: PagedLog, w: Window) {
    Exact(u, w) && Resumable(u, w) && EndsRightly(u, w)
  }

  lemma EnsuredOk(u: PagedLog, w: Window, target: Time)
    requires u.Valid() && WindowOk(u, w)
    ensures WindowOk(u, Ensured(u, w, target, u.MaxPages()))
  {
    EnsureKeeps(u, w, target, u.MaxPages());
    EnsureEndsRightly(u, w, target, u.MaxPages());
  }

  lemma ContextOk(g: Round, st: State, row: Check)
    requires g.Valid() && WindowsOk(g, st) && Bound(g, row)
    ensures var u, w := g.upstreams[BaseOf(g, row)], ContextFor(g, st, row).window;
            WindowOk(u, w) && w.pagesFetched <= u.MaxPages()
  {
    EmptyWindowOk(g.upstreams[BaseOf(g, row)]);
    hide Resumable, EndsRightly, HoldsPages, OnlyRead, Attained;
  }

  lemma AuditedWindowOk(g: Round, st: State, id: nat)
    requires g.Valid() && id in st.checks && WindowsOk(g, st) && Auditable(g, st, st.checks[id])
    requires g.upstreams[BaseOf(g, st.checks[id])].Valid()
    ensures var row, r := st.checks[id], Audited(g, st, id, None);
            BaseOf(g, row) in r.contexts && WindowOk(g.upstreams[BaseOf(g, row)], r.contexts[BaseOf(g, row)].window)
  {
    var row := st.checks[id];
    ContextOk(g, st, row);
    AuditedRowIs(g, st, id);
    hide Audited, WindowOk, Ensured, Choice, WindowsOk;
    EnsuredOk(g.upstreams[BaseOf(g, row)], ContextFor(g, st, row).window,
              row.requestAt.value - g.windowSeconds * SECOND);
  }

  lemma NearestInWindow(g: Round, u: PagedLog, ctx: Context, row: Check, after: Check, w: Window, i: nat)
    requires row.requestAt.Some? && u.Valid() && 0 < u.MaxPages() && WindowOk(u, w) && First(u) <= i < |u.all|
    requires var from := row.requestAt.value - g.windowSeconds * 1_000_000;
             && (ReachesBack(w, from) || w.exhausted || w.pagesFetched == u.MaxPages())
             && Fits(row, row.requestAt.value, g.windowSeconds, u.all[i]) && Unspent(g, ctx, u.all[i])
             && from < u.all[i].created.value
    requires after.matching.Matched? <==>
      exists log :: log in w.logs && Fits(row, row.requestAt.value, g.windowSeconds, log) && Unspent(g, ctx, log)
    requires after.matching.Matched? ==> exists k :: Got(g, ctx, row, after, w.logs, k)
    ensures || LastPageFailed(u, w)
            || BudgetSpent(u, w, row.requestAt.value - g.windowSeconds * 1_000_000)
            || GotAsNear(g, ctx, row, after, w.logs, u.all[i])
  {
    InWindow(u, w, row.requestAt.value - g.windowSeconds * 1_000_000, i);
    if u.all[i] in w.logs {
      hide Unspent, WindowOk;
      var k :| Got(g, ctx, row, after, w.logs, k);
      GotIsNearest(g, ctx, row, after, w.logs, k, u.all[i]);
    }
  }

  /** No log of the upstream's history that fits, is unspent and lies strictly inside the time window is
      nearer to the request than the one the row got; unless the upstream's last page could not be read
      or the page budget was spent, which is all that can keep a log from the row. */
  lemma AuditedIsNearest(g: Round, st: State, id: nat, i: nat)
    requires g.Valid() && id in st.checks && Auditable(g, st, st.checks[id]) && WindowsOk(g, st)
    requires var row := st.checks[id];
             var u := g.upstreams[BaseOf(g, row)];
             && u.Valid() && u.MaxPages() > 0 && First(u) <= i < |u.all|
             && Fits(row, row.requestAt.value, g.windowSeconds, u.all[i])
             && Unspent(g, ContextFor(g, st, row), u.all[i])
             && row.requestAt.value - g.windowSeconds * 1_000_000 < u.all[i].created.value
    ensures var row, r := st.checks[id], Audited(g, st, id, None);
            var u := g.upstreams[BaseOf(g, row)];
            BaseOf(g, row) in r.contexts &&
            var w := r.contexts[BaseOf(g, row)].window;
            || LastPageFailed(u, w)
            || BudgetSpent(u, w, row.requestAt.value - g.windowSeconds * 1_000_000)
            || GotAsNear(g, ContextFor(g, st, row), row, r.checks[id], w.logs, u.all[i])
  {
    hide Audited, WindowOk, Unspent, Fits, Got, GotAsNear, WindowsOk, LastPageFailed, BudgetSpent, ReachesBack;
    var row := st.checks[id];
    var u, ctx := g.upstreams[BaseOf(g, row)], ContextFor(g, st, row);
    ContextOk(g, st, row);
    AuditPagesFarEnough(g, st, id);
    AuditedWindowOk(g, st, id);
    MatchedIff(g, st, id);
    var r := Audited(g, st, id, None);
    NearestInWindow(g, u, ctx, row, r.checks[id], r.contexts[BaseOf(g, row)].window, i);
  }
}
