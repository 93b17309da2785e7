/** Matching the main site's requests to the upstream's logs: one round audits rows one after the
    other, and what earlier rounds matched is kept out by upstream site, log id and time. */
module AuditMatching {

  import opened Options
  import opened LogWindow
  import opened Paging

  /** A normalized base URL. */
  datatype Base = Base(url: string)

  datatype Matching = NoBinding | NoToken | NoLogApi | Unmatched | Matched

  /** A row of billing_request_checks, without the amounts and the verdict. */
  datatype Check = Check(
    channel: Option<nat>,
    requestAt: Option<Time>,
    modelName: string,
    promptTokens: nat,
    completionTokens: nat,
    cacheRead: Option<nat>,
    checkedAt: Option<Time>,
    matching: Matching,
    site: Option<nat>,
    logId: Option<nat>,
    logAt: Option<Time>)

  type Checks = map<nat, Check>

  datatype Link = Link(base: Base, site: Option<SiteRow>)

  // ---------------------------------------------------------------------------------------
  // Logs used up by earlier rounds
  // ---------------------------------------------------------------------------------------

  type References = seq<Option<Time>>
  type UsedMap = map<nat, map<nat, References>>

  function Lookup(used: UsedMap, site: nat, log: nat): References {
    if site in used && log in used[site] then used[site][log] else []
  }

  /** The log's own time, or that of the request for rows written before the column existed. */
  function Reference(c: Check): Option<Time> {
    if c.logAt.Some? then c.logAt else c.requestAt
  }

  predicate IsUseOf(c: Check, site: nat, log: nat) {
    site > 0 && log > 0 && c.site == Some(site) && c.logId == Some(log)
  }

  /** The references a list of rows holds for one log id of one site, in order. */
  function ReferencesOf(rows: seq<Check>, site: nat, log: nat): References {
    if rows == [] then []
    else
      var c := rows[|rows| - 1];
      var before := ReferencesOf(rows[..|rows| - 1], site, log);
      if IsUseOf(c, site, log) then before + [Reference(c)] else before
  }

  /** `_buildUsedUpstreamLogMap` */
  method BuildUsedMap(rows: seq<Check>) returns (used: UsedMap)
    ensures forall site, log :: Lookup(used, site, log) == ReferencesOf(rows, site, log)
  {
    used := map[];
    for i := 0 to |rows|
      invariant forall site, log :: Lookup(used, site, log) == ReferencesOf(rows[..i], site, log)
    {
      var c := rows[i];
      assert rows[..i + 1][..i] == rows[..i];
      var site := if c.site.Some? then c.site.value else 0;
      var log := if c.logId.Some? then c.logId.value else 0;
      if site > 0 && log > 0 {
        var ofSite := if site in used then used[site] else map[];
        used := used[site := ofSite[log := Lookup(used, site, log) + [Reference(c)]]];
      }
    }
    assert rows[..|rows|] == rows;
  }

  function Distance(a: Time, b: Time): nat {
    if a <= b then b - a else a - b
  }

  predicate Hits(reference: Option<Time>, created: Option<Time>, windowSeconds: nat) {
    created.None? || reference.None? || Distance(created.value, reference.value) <= windowSeconds * SECOND
  }

  predicate Consumed(used: UsedMap, site: nat, log: nat, created: Option<Time>, windowSeconds: nat) {
    var references := Lookup(used, site, log);
    exists k :: 0 <= k < |references| && Hits(references[k], created, windowSeconds)
  }

  /** `_upstreamLogAlreadyUsed` */
  method AlreadyUsed(used: UsedMap, site: nat, log: nat, created: Option<Time>, windowSeconds: nat)
    returns (yes: bool)
    ensures yes == Consumed(used, site, log, created, windowSeconds)
  {
    var references := Lookup(used, site, log);
    if references == [] {
      return false;
    }
    if created.None? {
      assert Hits(references[0], created, windowSeconds);
      return true;
    }
    for i := 0 to |references|
      invariant forall k :: 0 <= k < i ==> !Hits(references[k], created, windowSeconds)
    {
      if references[i].None? || Distance(created.value, references[i].value) <= windowSeconds * SECOND {
        assert Hits(references[i], created, windowSeconds);
        return true;
      }
    }
    return false;
  }

  // ---------------------------------------------------------------------------------------
  // One row
  // ---------------------------------------------------------------------------------------

  /** What a round reads once: the upstream of every channel, the logs used up before it, the match
      window and the clock. */
  datatype Round = Round(
    links: map<nat, Link>,
    upstreams: map<Base, PagedLog>,
    used: UsedMap,
    windowSeconds: nat,
    now: Time)
  {
    predicate Valid() {
      forall c :: c in links ==> links[c].base in upstreams
    }
  }

  datatype State = State(checks: Checks, contexts: map<Base, Context>)

  predicate SameRequest(row: Check, log: Log) {
    && log.modelName == row.modelName
    && log.promptTokens == row.promptTokens
    && log.completionTokens == row.completionTokens
    && (row.cacheRead.Some? && log.cacheRead.Some? ==> row.cacheRead == log.cacheRead)
  }

  predicate Free(g: Round, ctx: Context, log: Log) {
    && log.id.Some?
    && log.id.value !in ctx.used
    && (ctx.site.Some? ==> !Consumed(g.used, ctx.site.value.id, log.id.value, log.created, g.windowSeconds))
  }

  predicate Near(g: Round, requestAt: Time, log: Log) {
    log.created.Some? && Distance(log.created.value, requestAt) <= g.windowSeconds * SECOND
  }

  predicate Eligible(g: Round, ctx: Context, row: Check, requestAt: Time, log: Log) {
    Free(g, ctx, log) && SameRequest(row, log) && Near(g, requestAt, log)
  }

  /** The first of the nearest eligible logs. */
  function Best(g: Round, ctx: Context, row: Check, requestAt: Time, logs: seq<Log>): (r: Option<Log>)
    ensures r.Some? ==> r.value in logs && Eligible(g, ctx, row, requestAt, r.value)
  {
    if logs == [] then None
    else
      var log := logs[|logs| - 1];
      var best := Best(g, ctx, row, requestAt, logs[..|logs| - 1]);
      if Eligible(g, ctx, row, requestAt, log) &&
         (best.None? || Distance(log.created.value, requestAt) < Distance(best.value.created.value, requestAt))
      then Some(log) else best
  }

  function SiteIdOf(site: SiteRow): Option<nat> {
    if site.id > 0 then Some(site.id) else None
  }

  function ContextOf(st: State, link: Link): Context {
    if link.base in st.contexts then st.contexts[link.base] else Context(link.site, NO_WINDOW, {})
  }

  function Finalized(g: Round, row: Check, matching: Matching): Check {
    row.(matching := matching, checkedAt := Some(g.now))
  }

  /** The context once its window covers the row, as far as that goes.  `stop` is the page read in
      front of which the stop event comes up. */
  function Paged(g: Round, u: PagedLog, ctx: Context, requestAt: Time, stop: Option<nat>): Context {
    ctx.(window := Ensured(u, ctx.window, requestAt - g.windowSeconds * SECOND,
                           if stop.Some? then stop.value else u.MaxPages()))
  }

  function Choice(g: Round, ctx: Context, row: Check, requestAt: Time): (r: Option<Log>)
    ensures r.Some? ==> r.value in ctx.window.logs && Eligible(g, ctx, row, requestAt, r.value)
  {
    Best(g, ctx, row, requestAt, ctx.window.logs)
  }

  function Taken(ctx: Context, best: Option<Log>): Context {
    if best.Some? && best.value.id.Some? then ctx.(used := ctx.used + {best.value.id.value}) else ctx
  }

  function WithLog(row: Check, log: Log): Check
    requires log.created.Some?
  {
    row.(logId := log.id, logAt := Some(ToSecond(log.created.value)))
  }

  /** The part of `_auditRow` that needs the upstream's logs. */
  function Placed(g: Round, st: State, id: nat, row: Check, link: Link, site: SiteRow, stop: Option<nat>): State
    requires link.base in g.upstreams && link.base in st.contexts && row.requestAt.Some?
  {
    var requestAt := row.requestAt.value;
    var paged := Paged(g, g.upstreams[link.base], st.contexts[link.base], requestAt, stop);
    var best := if stop.Some? then None else Choice(g, paged, row, requestAt);
    var sited := row.(site := SiteIdOf(site));
    State(
      if stop.Some? then st.checks
      else if best.None? then st.checks[id := Finalized(g, sited, Unmatched)]
      else st.checks[id := Finalized(g, WithLog(sited, best.value), Matched)],
      st.contexts[link.base := Taken(paged, best)])
  }

  /** The rest of `_auditRow` once the row's context exists. */
  function AuditedIn(g: Round, st: State, id: nat, link: Link, stop: Option<nat>): State
    requires id in st.checks && link.base in g.upstreams && link.base in st.contexts
  {
    var row := st.checks[id];
    var site := st.contexts[link.base].site;
    if site.None? || !site.value.authReady then
      st.(checks := st.checks[id := Finalized(g, row, NoToken)])
    else if !site.value.hasLogApi then
      st.(checks := st.checks[id := Finalized(g, row, NoLogApi)])
    else if row.requestAt.None? then
      st.(checks := st.checks[id := Finalized(g, row.(site := SiteIdOf(site.value)), Unmatched)])
    else
      Placed(g, st, id, row, link, site.value, stop)
  }

  function WithContext(st: State, link: Link): State {
    st.(contexts := st.contexts[link.base := ContextOf(st, link)])
  }

  /** `_auditRow` */
  function Audited(g: Round, st: State, id: nat, stop: Option<nat>): State
    requires g.Valid() && id in st.checks
  {
    var row := st.checks[id];
    if row.channel.None? || row.channel.value !in g.links then
      st.(checks := st.checks[id := Finalized(g, row, NoBinding)])
    else
      var link := g.links[row.channel.value];
      AuditedIn(g, WithContext(st, link), id, link, stop)
  }

  function AuditedAll(g: Round, st: State, rows: seq<nat>): (r: State)
    requires g.Valid()
    requires forall i :: 0 <= i < |rows| ==> rows[i] in st.checks
    ensures r.checks.Keys == st.checks.Keys
  {
    if rows == [] then st
    else Audited(g, AuditedAll(g, st, rows[..|rows| - 1]), rows[|rows| - 1], None)
  }

  /** The rows of one round; the stop event may come up while one more row is audited, in front of
      the given page. */
  function AuditedRound(g: Round, st: State, rows: seq<nat>, stop: Option<(nat, nat)>): State
    requires g.Valid()
    requires forall i :: 0 <= i < |rows| ==> rows[i] in st.checks
    requires stop.Some? ==> stop.value.0 in st.checks
  {
    var done := AuditedAll(g, st, rows);
    if stop.Some? then Audited(g, done, stop.value.0, Some(stop.value.1)) else done
  }

  /** One round over the check table: the upstream contexts live as long as the round. */
  class AuditRun {
    const g: Round
    var checks: Checks
    var contexts: map<Base, UpstreamContext>

    ghost predicate Valid()
      reads this, contexts.Values
    {
      && g.Valid()
      && (forall b :: b in contexts ==> b in g.upstreams && contexts[b].upstream == g.upstreams[b])
      && (forall b, c :: b in contexts && c in contexts && b != c ==> contexts[b] != contexts[c])
    }

    ghost function Contents(): State
      reads this, contexts.Values
    {
      State(checks, map b | b in contexts :: contexts[b].Value())
    }

    constructor (g: Round, checks: Checks)
      requires g.Valid()
      ensures Valid() && this.g == g && Contents() == State(checks, map[])
    {
      this.g, this.checks, contexts := g, checks, map[];
    }

    /** The context of a base URL is made when the first of its rows comes up. */
    method ContextFor(link: Link) returns (ctx: UpstreamContext)
      requires Valid() && link.base in g.upstreams
      modifies `contexts
      ensures Valid() && link.base in contexts && contexts[link.base] == ctx
      ensures forall b :: b in contexts ==> fresh(contexts[b]) || (b in old(contexts) && contexts[b] == old(contexts[b]))
      ensures Contents() == WithContext(old(Contents()), link)
    {
      if link.base in contexts {
        ctx := contexts[link.base];
      } else {
        ctx := new UpstreamContext(link.site, g.upstreams[link.base]);
        contexts := contexts[link.base := ctx];
      }
    }

    /** The matching loop. */
    method FindBest(ctx: UpstreamContext, row: Check, requestAt: Time) returns (best: Option<Log>)
      ensures best == Best(g, ctx.Value(), row, requestAt, ctx.logs)
    {
      best := None;
      for i := 0 to |ctx.logs|
        invariant best == Best(g, ctx.Value(), row, requestAt, ctx.logs[..i])
      {
        var log := ctx.logs[i];
        assert ctx.logs[..i + 1][..i] == ctx.logs[..i];
        if log.id.None? || log.id.value in ctx.usedLogIds {
          continue;
        }
        if ctx.site.Some? {
          var consumed := AlreadyUsed(g.used, ctx.site.value.id, log.id.value, log.created, g.windowSeconds);
          if consumed {
            continue;
          }
        }
        if log.modelName != row.modelName || log.promptTokens != row.promptTokens {
          continue;
        }
        if log.completionTokens != row.completionTokens || log.created.None? {
          continue;
        }
        var delta := Distance(log.created.value, requestAt);
        if delta > g.windowSeconds * SECOND {
          continue;
        }
        if row.cacheRead.Some? && log.cacheRead.Some? && row.cacheRead != log.cacheRead {
          continue;
        }
        if best.None? || delta < Distance(best.value.created.value, requestAt) {
          best := Some(log);
        }
      }
      assert ctx.logs[..|ctx.logs|] == ctx.logs;
    }

    method Finalize(id: nat, row: Check, matching: Matching)
      modifies `checks
      ensures checks == old(checks)[id := Finalized(g, row, matching)]
    {
      checks := checks[id := row.(matching := matching, checkedAt := Some(g.now))];
    }

    /** Pages the context's window as far as the row needs it and takes the nearest free log. */
    method TakeLog(ctx: UpstreamContext, row: Check, requestAt: Time, stop: Option<nat>) returns (best: Option<Log>)
      modifies ctx
      ensures ctx.Value() == Taken(Paged(g, ctx.upstream, old(ctx.Value()), requestAt, stop), best)
      ensures best == if stop.Some? then None
                      else Choice(g, Paged(g, ctx.upstream, old(ctx.Value()), requestAt, stop), row, requestAt)
    {
      ctx.Ensure(requestAt, g.windowSeconds, if stop.Some? then stop.value else ctx.upstream.MaxPages());
      if stop.Some? {
        return None;
      }
      best := FindBest(ctx, row, requestAt);
      if best.Some? {
        ctx.usedLogIds := ctx.usedLogIds + {best.value.id.value};
      }
    }

    method MatchRow(id: nat, row: Check, link: Link, ctx: UpstreamContext, stop: Option<nat>)
      requires Valid() && link.base in contexts && contexts[link.base] == ctx
      requires row.requestAt.Some? && ctx.site.Some?
      modifies `checks, ctx
      ensures Valid() && contexts == old(contexts)
      ensures Contents() == Placed(g, old(Contents()), id, row, link, ctx.site.value, stop)
    {
      hide Taken, Paged, Choice, Finalized, WithLog;
      var best := TakeLog(ctx, row, row.requestAt.value, stop);
      assert Contents().contexts == old(Contents()).contexts[link.base := ctx.Value()];
      if stop.Some? {
        return;
      }
      var sited := row.(site := SiteIdOf(ctx.site.value));
      if best.None? {
        Finalize(id, sited, Unmatched);
      } else {
        Finalize(id, WithLog(sited, best.value), Matched);
      }
    }

    method AuditLinked(id: nat, link: Link, stop: Option<nat>)
      requires Valid() && id in checks && link.base in contexts
      modifies `checks, contexts[link.base]
      ensures Valid() && contexts == old(contexts)
      ensures Contents() == AuditedIn(g, old(Contents()), id, link, stop)
    {
      hide Placed, Finalized;
      var row := checks[id];
      var ctx := contexts[link.base];
      if ctx.site.None? || !ctx.site.value.authReady {
        Finalize(id, row, NoToken);
      } else if !ctx.site.value.hasLogApi {
        Finalize(id, row, NoLogApi);
      } else if row.requestAt.None? {
        Finalize(id, row.(site := SiteIdOf(ctx.site.value)), Unmatched);
      } else {
        MatchRow(id, row, link, ctx, stop);
      }
    }

    method AuditRow(id: nat, stop: Option<nat>)
      requires Valid() && id in checks
      modifies this, contexts.Values
      ensures Valid() && Contents() == Audited(g, old(Contents()), id, stop)
      ensures forall b :: b in contexts ==> fresh(contexts[b]) || contexts[b] in old(contexts.Values)
    {
      hide AuditedIn, WithContext;
      var row := checks[id];
      if row.channel.None? || row.channel.value !in g.links {
        Finalize(id, row, NoBinding);
      } else {
        var link := g.links[row.channel.value];
        var ctx := ContextFor(link);
        AuditLinked(id, link, stop);
      }
    }

    method AuditRows(rows: seq<nat>, stop: Option<(nat, nat)>)
      requires Valid() && contexts == map[]
      requires forall i :: 0 <= i < |rows| ==> rows[i] in checks
      requires stop.Some? ==> stop.value.0 in checks
      modifies this
      ensures Valid()
      ensures Contents() == AuditedRound(g, old(Contents()), rows, stop)
    {
      hide Audited;
      ghost var start := Contents();
      for i := 0 to |rows|
        invariant Valid()
        invariant forall b :: b in contexts ==> fresh(contexts[b])
        invariant Contents() == AuditedAll(g, start, rows[..i])
      {
        assert rows[..i + 1][..i] == rows[..i];
        assert Contents().checks.Keys == start.checks.Keys;
        AuditRow(rows[i], None);
      }
      assert rows[..|rows|] == rows;
      assert Contents().checks.Keys == start.checks.Keys;
      if stop.Some? {
        AuditRow(stop.value.0, Some(stop.value.1));
      }
    }
  }
}
