/** What matching guarantees: the nearest free log is taken, no log pays for two requests over any
    run of rounds (exactly if no upstream site is reached under two base URLs), a matched row is
    final, and the paged window serves the matching as a full scan would. */
module AuditTheorems {

  import opened Options
  import opened LogWindow
  import opened Paging
  import opened AuditMatching

  // ---------------------------------------------------------------------------------------
  // Selection
  // ---------------------------------------------------------------------------------------

  /** No log is chosen exactly if none is eligible, and no eligible log is nearer than the chosen. */
  lemma {:induction false} BestIsNearest(g: Round, ctx: Context, row: Check, requestAt: Time, logs: seq<Log>, i: nat)
    requires i < |logs| && Eligible(g, ctx, row, requestAt, logs[i])
    ensures var best := Best(g, ctx, row, requestAt, logs);
            best.Some? && Distance(best.value.created.value, requestAt) <= Distance(logs[i].created.value, requestAt)
  {
    var n := |logs| - 1;
    if i < n {
      BestIsNearest(g, ctx, row, requestAt, logs[..n], i);
    }
  }

  /** `logs[i]` is the first of the nearest eligible logs. */
  ghost predicate FirstNearest(g: Round, ctx: Context, row: Check, requestAt: Time, logs: seq<Log>, i: nat)
    requires i < |logs|
  {
    && Eligible(g, ctx, row, requestAt, logs[i])
    && forall j :: 0 <= j < |logs| && Eligible(g, ctx, row, requestAt, logs[j]) ==>
         var di, dj := Distance(logs[i].created.value, requestAt), Distance(logs[j].created.value, requestAt);
         di <= dj && (j < i ==> di < dj)
  }

  lemma StaysFirst(g: Round, ctx: Context, row: Check, requestAt: Time, logs: seq<Log>, i: nat)
    requires i < |logs| - 1 && FirstNearest(g, ctx, row, requestAt, logs[..|logs| - 1], i)
    requires var log := logs[|logs| - 1];
             Eligible(g, ctx, row, requestAt, log) ==>
               Distance(logs[i].created.value, requestAt) <= Distance(log.created.value, requestAt)
    ensures FirstNearest(g, ctx, row, requestAt, logs, i)
  {
    hide Eligible;
    var prior := logs[..|logs| - 1];
    forall j | 0 <= j < |prior| ensures prior[j] == logs[j] {}
  }

  lemma BecomesFirst(g: Round, ctx: Context, row: Check, requestAt: Time, logs: seq<Log>)
    requires logs != [] && Eligible(g, ctx, row, requestAt, logs[|logs| - 1])
    requires forall j :: 0 <= j < |logs| - 1 && Eligible(g, ctx, row, requestAt, logs[j]) ==>
               Distance(logs[|logs| - 1].created.value, requestAt) < Distance(logs[j].created.value, requestAt)
    ensures FirstNearest(g, ctx, row, requestAt, logs, |logs| - 1)
  {
  }

  /** Where the chosen log stands, if one is chosen; if none is, none is eligible. */
  lemma {:induction false} BestStands(g: Round, ctx: Context, row: Check, requestAt: Time, logs: seq<Log>)
    returns (i: nat)
    ensures var best := Best(g, ctx, row, requestAt, logs);
            if best.Some? then i < |logs| && logs[i] == best.value && FirstNearest(g, ctx, row, requestAt, logs, i)
            else forall j :: 0 <= j < |logs| ==> !Eligible(g, ctx, row, requestAt, logs[j])
  {
    i := 0;
    if logs != [] {
      var n := |logs| - 1;
      i := BestStands(g, ctx, row, requestAt, logs[..n]);
      var best := Best(g, ctx, row, requestAt, logs[..n]);
      var log := logs[n];
      assert forall j :: 0 <= j < n ==> logs[..n][j] == logs[j];
      if Eligible(g, ctx, row, requestAt, log)
         && (best.None? || Distance(log.created.value, requestAt) < Distance(best.value.created.value, requestAt)) {
        BecomesFirst(g, ctx, row, requestAt, logs);
        i := n;
      } else if best.Some? {
        StaysFirst(g, ctx, row, requestAt, logs, i);
      }
    }
  }

  /** A row finds no log exactly if none is eligible; otherwise it finds the first of the nearest. */
  lemma BestIsFirstNearest(g: Round, ctx: Context, row: Check, requestAt: Time, logs: seq<Log>)
    ensures var best := Best(g, ctx, row, requestAt, logs);
            && (best.None? <==> forall i :: 0 <= i < |logs| ==> !Eligible(g, ctx, row, requestAt, logs[i]))
            && (best.Some? ==> exists i ::
                  0 <= i < |logs| && logs[i] == best.value && FirstNearest(g, ctx, row, requestAt, logs, i))
  {
    hide Eligible, Best;
    var i := BestStands(g, ctx, row, requestAt, logs);
  }

  // ---------------------------------------------------------------------------------------
  // No upstream log pays for two requests
  // ---------------------------------------------------------------------------------------

  /** A log as the table remembers it: ids repeat when an upstream rebuilds its database, so the
      time belongs to it. */
  datatype Ref = Ref(site: nat, log: nat, second: Time)

  function RefOf(c: Check): Option<Ref> {
    if c.site.Some? && c.site.value > 0 && c.logId.Some? && c.logId.value > 0 && c.logAt.Some?
    then Some(Ref(c.site.value, c.logId.value, c.logAt.value))
    else None
  }

  ghost predicate Injective(t: Checks) {
    forall a, b :: a in t && b in t && a != b && RefOf(t[a]).Some? ==> RefOf(t[a]) != RefOf(t[b])
  }

  predicate Usable(site: SiteRow) {
    site.id > 0 && site.authReady && site.hasLogApi
  }

  predicate SameUsableSite(x: Link, y: Link) {
    && x.site.Some? && y.site.Some?
    && Usable(x.site.value) && Usable(y.site.value)
    && x.site.value.id == y.site.value.id
  }

  /** Two channels of one usable upstream site are reached under one base URL. */
  ghost predicate OneBasePerSite(links: map<nat, Link>) {
    forall c, d :: c in links && d in links && SameUsableSite(links[c], links[d]) ==> links[c].base == links[d].base
  }

  /** The references the round works with are those of the rows with a log at its start. */
  ghost predicate Reflects(used: UsedMap, t: Checks) {
    forall id, site, log :: id in t && IsUseOf(t[id], site, log) ==> Reference(t[id]) in Lookup(used, site, log)
  }

  lemma {:induction false} UseIsReferenced(rows: seq<Check>, site: nat, log: nat, k: nat)
    requires k < |rows| && IsUseOf(rows[k], site, log)
    ensures Reference(rows[k]) in ReferencesOf(rows, site, log)
  {
    var n := |rows| - 1;
    var before := ReferencesOf(rows[..n], site, log);
    if k < n {
      UseIsReferenced(rows[..n], site, log, k);
      var j :| 0 <= j < |before| && before[j] == Reference(rows[k]);
      assert ReferencesOf(rows, site, log)[j] == Reference(rows[k]);
    } else {
      assert ReferencesOf(rows, site, log)[|before|] == Reference(rows[k]);
    }
  }

  /** The map built from the rows that hold a log keeps every use of the table. */
  lemma BuiltMapReflects(used: UsedMap, rows: seq<Check>, t: Checks)
    requires forall site, log :: Lookup(used, site, log) == ReferencesOf(rows, site, log)
    requires forall id :: id in t && t[id].logId.Some? ==> t[id] in rows
    ensures Reflects(used, t)
  {
    forall id, site, log | id in t && IsUseOf(t[id], site, log)
      ensures Reference(t[id]) in Lookup(used, site, log)
    {
      var k :| 0 <= k < |rows| && rows[k] == t[id];
      UseIsReferenced(rows, site, log, k);
    }
  }

  /** Some context of this round has handed the row its log. */
  ghost predicate TakenHere(st: State, c: Check) {
    exists b :: b in st.contexts && TakenIn(st.contexts[b], c)
  }

  predicate TakenIn(ctx: Context, c: Check) {
    && ctx.site.Some? && Usable(ctx.site.value)
    && c.site == Some(ctx.site.value.id)
    && c.logId.Some? && c.logId.value in ctx.used
  }

  /** Every log held by a row was there when the round began or was handed out by a context. */
  ghost predicate Tracked(t0: Checks, st: State) {
    forall id :: id in st.checks && RefOf(st.checks[id]).Some? ==>
      (id in t0 && st.checks[id] == t0[id]) || TakenHere(st, st.checks[id])
  }

  /** The context's site is the one some channel's link names. */
  ghost predicate Linked(g: Round, b: Base, ctx: Context) {
    exists c :: c in g.links && g.links[c].base == b && g.links[c].site == ctx.site
  }

  ghost predicate AllLinked(g: Round, st: State) {
    forall b :: b in st.contexts ==> Linked(g, b, st.contexts[b])
  }

  lemma SecondIsNear(created: Time, windowSeconds: nat)
    requires windowSeconds >= 1
    ensures Distance(created, ToSecond(created)) <= windowSeconds * SECOND
  {
    assert created == ToSecond(created) + created % SECOND;
    assert SECOND <= windowSeconds * SECOND;
  }

  /** A log an earlier round's row holds is not free. */
  lemma HeldIsConsumed(g: Round, t0: Checks, id: nat, site: nat, log: Log)
    requires g.windowSeconds >= 1 && Reflects(g.used, t0) && id in t0
    requires log.id.Some? && log.created.Some?
    requires IsUseOf(t0[id], site, log.id.value) && t0[id].logAt == Some(ToSecond(log.created.value))
    ensures Consumed(g.used, site, log.id.value, log.created, g.windowSeconds)
  {
    SecondIsNear(log.created.value, g.windowSeconds);
    var references := Lookup(g.used, site, log.id.value);
    var k :| 0 <= k < |references| && references[k] == Reference(t0[id]);
    assert Hits(references[k], log.created, g.windowSeconds);
  }

  lemma SameBase(g: Round, b: Base, d: Base, x: Context, y: Context)
    requires OneBasePerSite(g.links) && Linked(g, b, x) && Linked(g, d, y)
    requires x.site.Some? && y.site.Some? && Usable(x.site.value) && Usable(y.site.value)
    requires x.site.value.id == y.site.value.id
    ensures b == d
  {
    var i :| i in g.links && g.links[i].base == b && g.links[i].site == x.site;
    var j :| j in g.links && g.links[j].base == d && g.links[j].site == y.site;
  }

  /** What a context of the same site handed out, this context handed out. */
  lemma TakenByThisContext(g: Round, st: State, b: Base, c: Check)
    requires OneBasePerSite(g.links) && AllLinked(g, st)
    requires b in st.contexts && st.contexts[b].site.Some? && Usable(st.contexts[b].site.value)
    requires TakenHere(st, c) && c.site == Some(st.contexts[b].site.value.id)
    ensures c.logId.Some? && c.logId.value in st.contexts[b].used
  {
    var d :| d in st.contexts && TakenIn(st.contexts[d], c);
    SameBase(g, b, d, st.contexts[b], st.contexts[d]);
  }

  /** A log that is free for the context is held by no other row. */
  lemma FreeIsUnheld(g: Round, t0: Checks, st: State, b: Base, log: Log, other: nat)
    requires g.windowSeconds >= 1 && OneBasePerSite(g.links) && Reflects(g.used, t0)
    requires Tracked(t0, st) && AllLinked(g, st)
    requires b in st.contexts && st.contexts[b].site.Some? && Usable(st.contexts[b].site.value)
    requires log.created.Some? && Free(g, st.contexts[b], log)
    requires other in st.checks && RefOf(st.checks[other]).Some?
    ensures RefOf(st.checks[other]) !=
      Some(Ref(st.contexts[b].site.value.id, log.id.value, ToSecond(log.created.value)))
  {
    var site := st.contexts[b].site.value.id;
    var c := st.checks[other];
    if c.site == Some(site) && TakenHere(st, c) {
      TakenByThisContext(g, st, b, c);
    }
    if RefOf(c) == Some(Ref(site, log.id.value, ToSecond(log.created.value))) && other in t0 && c == t0[other] {
      HeldIsConsumed(g, t0, other, site, log);
    }
  }

  ghost predicate RoundInv(g: Round, t0: Checks, st: State) {
    Injective(st.checks) && Tracked(t0, st) && AllLinked(g, st)
  }

  /** A row that gets no log changes nothing. */
  lemma WithoutLogKeeps(g: Round, t0: Checks, st: State, id: nat, row: Check)
    requires RoundInv(g, t0, st) && row.logId.None?
    ensures RoundInv(g, t0, st.(checks := st.checks[id := row]))
  {
    var st2 := st.(checks := st.checks[id := row]);
    forall x | x in st2.checks && RefOf(st2.checks[x]).Some?
      ensures (x in t0 && st2.checks[x] == t0[x]) || TakenHere(st2, st2.checks[x])
    {
      assert x != id;
      if TakenHere(st, st.checks[x]) {
        var b :| b in st.contexts && TakenIn(st.contexts[b], st.checks[x]);
      }
    }
  }

  predicate Extends(x: Context, y: Context) {
    y.site == x.site && x.used <= y.used
  }

  /** Contexts only ever gain logs. */
  lemma GrownContextKeeps(g: Round, t0: Checks, st: State, b: Base, ctx: Context)
    requires RoundInv(g, t0, st)
    requires if b in st.contexts then Extends(st.contexts[b], ctx) else Linked(g, b, ctx)
    ensures RoundInv(g, t0, st.(contexts := st.contexts[b := ctx]))
  {
    var st2 := st.(contexts := st.contexts[b := ctx]);
    forall x | x in st2.checks && RefOf(st2.checks[x]).Some?
      ensures (x in t0 && st2.checks[x] == t0[x]) || TakenHere(st2, st2.checks[x])
    {
      if TakenHere(st, st.checks[x]) {
        var d :| d in st.contexts && TakenIn(st.contexts[d], st.checks[x]);
        assert TakenIn(st2.contexts[d], st2.checks[x]);
      }
    }
    forall d | d in st2.contexts ensures Linked(g, d, st2.contexts[d]) {
      if d in st.contexts {
        var c :| c in g.links && g.links[c].base == d && g.links[c].site == st.contexts[d].site;
      }
    }
  }

  /** Handing a free log to a row. */
  lemma MatchKeeps(g: Round, t0: Checks, st: State, b: Base, id: nat, row: Check, log: Log)
    requires g.windowSeconds >= 1 && OneBasePerSite(g.links) && Reflects(g.used, t0)
    requires RoundInv(g, t0, st)
    requires b in st.contexts && st.contexts[b].site.Some?
    requires st.contexts[b].site.value.authReady && st.contexts[b].site.value.hasLogApi
    requires log.created.Some? && Free(g, st.contexts[b], log)
    requires row.site == SiteIdOf(st.contexts[b].site.value)
    requires row.logId == log.id && row.logAt == Some(ToSecond(log.created.value))
    ensures RoundInv(g, t0, State(st.checks[id := row], st.contexts[b := Taken(st.contexts[b], Some(log))]))
  {
    var ctx := Taken(st.contexts[b], Some(log));
    var site := ctx.site.value;
    var grown := st.(contexts := st.contexts[b := ctx]);
    GrownContextKeeps(g, t0, st, b, ctx);
    var st2 := grown.(checks := st.checks[id := row]);
    if RefOf(row).Some? {
      forall x | x in st.checks && x != id && RefOf(st.checks[x]).Some? ensures RefOf(st.checks[x]) != RefOf(row) {
        FreeIsUnheld(g, t0, st, b, log, x);
      }
      assert TakenIn(ctx, row);
    }
    forall x | x in st2.checks && RefOf(st2.checks[x]).Some?
      ensures (x in t0 && st2.checks[x] == t0[x]) || TakenHere(st2, st2.checks[x])
    {
      if x == id {
        assert TakenIn(st2.contexts[b], row);
      } else if TakenHere(grown, grown.checks[x]) {
        var d :| d in grown.contexts && TakenIn(grown.contexts[d], grown.checks[x]);
      }
    }
  }

  ghost predicate RoundOk(g: Round, t0: Checks) {
    g.Valid() && g.windowSeconds >= 1 && OneBasePerSite(g.links) && Reflects(g.used, t0)
  }

  lemma PlacedKeeps(g: Round, t0: Checks, st: State, id: nat, link: Link, site: SiteRow, stop: Option<nat>)
    requires RoundOk(g, t0) && RoundInv(g, t0, st) && id in st.checks && st.checks[id].logId.None?
    requires link.base in g.upstreams && link.base in st.contexts && st.checks[id].requestAt.Some?
    requires st.contexts[link.base].site == Some(site) && site.authReady && site.hasLogApi
    ensures RoundInv(g, t0, Placed(g, st, id, st.checks[id], link, site, stop))
  {
    hide Best, Ensured, RoundInv;
    var row := st.checks[id];
    var sited := row.(site := SiteIdOf(site));
    var paged := Paged(g, g.upstreams[link.base], st.contexts[link.base], row.requestAt.value, stop);
    var best := if stop.Some? then None else Choice(g, paged, row, row.requestAt.value);
    var st1 := st.(contexts := st.contexts[link.base := paged]);
    GrownContextKeeps(g, t0, st, link.base, paged);
    if stop.None? {
      if best.None? {
        WithoutLogKeeps(g, t0, st1, id, Finalized(g, sited, Unmatched));
      } else {
        var matched := Finalized(g, WithLog(sited, best.value), Matched);
        MatchKeeps(g, t0, st1, link.base, id, matched, best.value);
        assert st1.contexts[link.base := Taken(paged, best)] == st.contexts[link.base := Taken(paged, best)];
      }
    }
  }

  lemma AuditedInKeeps(g: Round, t0: Checks, st: State, id: nat, link: Link, stop: Option<nat>)
    requires RoundOk(g, t0) && RoundInv(g, t0, st) && id in st.checks && st.checks[id].logId.None?
    requires link.base in g.upstreams && link.base in st.contexts
    ensures RoundInv(g, t0, AuditedIn(g, st, id, link, stop))
  {
    hide Placed, RoundInv;
    var row := st.checks[id];
    var site := st.contexts[link.base].site;
    if site.None? || !site.value.authReady {
      WithoutLogKeeps(g, t0, st, id, Finalized(g, row, NoToken));
    } else if !site.value.hasLogApi {
      WithoutLogKeeps(g, t0, st, id, Finalized(g, row, NoLogApi));
    } else if row.requestAt.None? {
      WithoutLogKeeps(g, t0, st, id, Finalized(g, row.(site := SiteIdOf(site.value)), Unmatched));
    } else {
      PlacedKeeps(g, t0, st, id, link, site.value, stop);
    }
  }

  /** Auditing a row without a log keeps the matching injective. */
  lemma AuditedKeeps(g: Round, t0: Checks, st: State, id: nat, stop: Option<nat>)
    requires RoundOk(g, t0) && RoundInv(g, t0, st) && id in st.checks && st.checks[id].logId.None?
    ensures RoundInv(g, t0, Audited(g, st, id, stop))
  {
    hide AuditedIn;
    var row := st.checks[id];
    if row.channel.None? || row.channel.value !in g.links {
      WithoutLogKeeps(g, t0, st, id, Finalized(g, row, NoBinding));
    } else {
      var link := g.links[row.channel.value];
      assert link.base in st.contexts || Linked(g, link.base, ContextOf(st, link));
      GrownContextKeeps(g, t0, st, link.base, ContextOf(st, link));
      AuditedInKeeps(g, t0, WithContext(st, link), id, link, stop);
    }
  }

  // ---------------------------------------------------------------------------------------
  // Matched rows are final
  // ---------------------------------------------------------------------------------------

  /** A due row has never been checked, or was left grey for a reason that may have gone away. */
  predicate Due(c: Check) {
    c.checkedAt.None? || !c.matching.Matched?
  }

  predicate RowOk(c: Check) {
    (c.logId.Some? ==> c.matching.Matched?) && (c.matching.Matched? ==> c.checkedAt.Some?)
  }

  ghost predicate TableOk(t: Checks) {
    forall id :: id in t ==> RowOk(t[id])
  }

  /** Auditing touches no other row and leaves the audited one well formed. */
  lemma AuditedRow(g: Round, st: State, id: nat, stop: Option<nat>)
    requires g.Valid() && id in st.checks && RowOk(st.checks[id]) && Due(st.checks[id])
    ensures var r := Audited(g, st, id, stop);
            && r.checks.Keys == st.checks.Keys
            && RowOk(r.checks[id])
            && (forall x :: x in st.checks && x != id ==> r.checks[x] == st.checks[x])
  {
    hide Best, Ensured;
  }

  /** The rows of a round, each listed once and due when the round selects them. */
  ghost predicate Selected(t: Checks, rows: seq<nat>) {
    && (forall i :: 0 <= i < |rows| ==> rows[i] in t && Due(t[rows[i]]))
    && (forall i, j :: 0 <= i < j < |rows| ==> rows[i] != rows[j])
  }

  lemma {:induction false} RoundChangesSelected(g: Round, st: State, rows: seq<nat>)
    requires g.Valid() && TableOk(st.checks) && Selected(st.checks, rows)
    ensures var r := AuditedAll(g, st, rows);
            && r.checks.Keys == st.checks.Keys
            && TableOk(r.checks)
            && (forall x :: x in st.checks && x !in rows ==> r.checks[x] == st.checks[x])
  {
    hide Audited;
    if rows != [] {
      var n := |rows| - 1;
      RoundChangesSelected(g, st, rows[..n]);
      var mid := AuditedAll(g, st, rows[..n]);
      assert rows[n] !in rows[..n];
      AuditedRow(g, mid, rows[n], None);
      var r := Audited(g, mid, rows[n], None);
      forall x | x in r.checks ensures RowOk(r.checks[x]) {
        if x != rows[n] { assert r.checks[x] == mid.checks[x]; }
      }
      assert rows[n] in rows;
      forall x | x in st.checks && x !in rows ensures r.checks[x] == st.checks[x] {
        assert x !in rows[..n];
      }
    }
  }

  lemma {:induction false} RoundKeepsInjective(g: Round, st: State, rows: seq<nat>)
    requires RoundOk(g, st.checks) && TableOk(st.checks) && Selected(st.checks, rows)
    requires Injective(st.checks) && st.contexts == map[]
    ensures RoundInv(g, st.checks, AuditedAll(g, st, rows))
  {
    hide Audited;
    if rows != [] {
      var n := |rows| - 1;
      RoundKeepsInjective(g, st, rows[..n]);
      RoundChangesSelected(g, st, rows[..n]);
      var mid := AuditedAll(g, st, rows[..n]);
      assert rows[n] !in rows[..n];
      assert mid.checks[rows[n]] == st.checks[rows[n]];
      AuditedKeeps(g, st.checks, mid, rows[n], None);
    }
  }

  // ---------------------------------------------------------------------------------------
  // Runs
  // ---------------------------------------------------------------------------------------

  /** What happens to the check table of one main site: a new request, the retention limit, a round. */
  datatype Event =
    | Inserted(id: nat, row: Check)
    | Pruned(ids: set<nat>)
    | Audit(g: Round, rows: seq<nat>, stop: Option<(nat, nat)>)

  ghost predicate StopOk(t: Checks, rows: seq<nat>, stop: Option<(nat, nat)>) {
    stop.Some? ==> stop.value.0 in t && Due(t[stop.value.0]) && stop.value.0 !in rows
  }

  ghost predicate Allowed(t: Checks, e: Event) {
    match e
    case Inserted(id, row) => id !in t && row.checkedAt.None? && row.logId.None? && !row.matching.Matched?
    case Pruned(_) => true
    case Audit(g, rows, stop) => RoundOk(g, t) && Selected(t, rows) && StopOk(t, rows, stop)
  }

  ghost function After(t: Checks, e: Event): Checks
    requires Allowed(t, e)
  {
    match e
    case Inserted(id, row) => t[id := row]
    case Pruned(ids) => map id | id in t && id !in ids :: t[id]
    case Audit(g, rows, stop) => AuditedRound(g, State(t, map[]), rows, stop).checks
  }

  lemma AuditEvent(t: Checks, e: Event)
    requires e.Audit? && Allowed(t, e) && TableOk(t)
    ensures var r := After(t, e);
            && r.Keys == t.Keys
            && TableOk(r)
            && (forall x :: x in t && t[x].matching.Matched? ==> r[x] == t[x])
            && (Injective(t) ==> Injective(r))
  {
    hide Audited;
    var st := State(t, map[]);
    var done := AuditedAll(e.g, st, e.rows);
    RoundChangesSelected(e.g, st, e.rows);
    if Injective(t) {
      RoundKeepsInjective(e.g, st, e.rows);
    }
    if e.stop.Some? {
      var id := e.stop.value.0;
      AuditedRow(e.g, done, id, Some(e.stop.value.1));
      if Injective(t) {
        AuditedKeeps(e.g, t, done, id, Some(e.stop.value.1));
      }
    }
  }

  lemma EventKeeps(t: Checks, e: Event)
    requires Allowed(t, e) && TableOk(t)
    ensures TableOk(After(t, e))
    ensures Injective(t) ==> Injective(After(t, e))
  {
    if e.Audit? {
      AuditEvent(t, e);
    }
  }

  ghost predicate RunOk(t: Checks, run: seq<Event>)
    decreases |run|
  {
    run != [] ==> Allowed(t, run[0]) && RunOk(After(t, run[0]), run[1..])
  }

  ghost function AfterRun(t: Checks, run: seq<Event>): Checks
    requires RunOk(t, run)
    decreases |run|
  {
    if run == [] then t else AfterRun(After(t, run[0]), run[1..])
  }

  /** Over any run of rounds, arriving requests and pruning, no two rows hold the same upstream log. */
  lemma {:induction false} RunKeepsInjective(t: Checks, run: seq<Event>)
    requires RunOk(t, run) && TableOk(t) && Injective(t)
    ensures TableOk(AfterRun(t, run)) && Injective(AfterRun(t, run))
    decreases |run|
  {
    if run != [] {
      EventKeeps(t, run[0]);
      RunKeepsInjective(After(t, run[0]), run[1..]);
    }
  }

  predicate Kept(run: seq<Event>, id: nat) {
    forall i :: 0 <= i < |run| && run[i].Pruned? ==> id !in run[i].ids
  }

  /** A matched row is never audited again: it stays as it is until it is pruned. */
  lemma {:induction false} MatchedIsFinal(t: Checks, run: seq<Event>, id: nat)
    requires RunOk(t, run) && TableOk(t) && Kept(run, id)
    requires id in t && t[id].matching.Matched?
    ensures id in AfterRun(t, run) && AfterRun(t, run)[id] == t[id]
    decreases |run|
  {
    if run != [] {
      EventKeeps(t, run[0]);
      if run[0].Audit? {
        AuditEvent(t, run[0]);
      }
      MatchedIsFinal(After(t, run[0]), run[1..], id);
    }
  }

  // ---------------------------------------------------------------------------------------
  // Exactly when matching stays injective
  // ---------------------------------------------------------------------------------------

  ghost predicate StaysInjective(g: Round, t: Checks, rows: seq<nat>) {
    g.Valid() && g.windowSeconds >= 1 && Reflects(g.used, t) && TableOk(t) && Injective(t) && Selected(t, rows) ==>
      Injective(AuditedAll(g, State(t, map[]), rows).checks)
  }

  ghost predicate AlwaysInjective(links: map<nat, Link>) {
    forall g: Round, t: Checks, rows: seq<nat> :: g.links == links ==> StaysInjective(g, t, rows)
  }

  const LOG := Log(Some(1), Some(0), "m", 0, 0, None)
  const ONE_LOG := PagedLog([LOG], seq(NEWAPI_MAX_PAGES, _ => Fetch(0, false)), false, NEWAPI_PAGE_SIZE)

  function NewRow(channel: nat): Check {
    Check(Some(channel), Some(0), "m", 0, 0, None, None, NoBinding, None, None, None)
  }

  /** The second page is empty. */
  lemma OneLogWindow()
    ensures Ensured(ONE_LOG, NO_WINDOW, -SECOND, NEWAPI_MAX_PAGES) == Window([LOG], Some(0), true, 2, Some(LOG.Key()))
  {
    assert ONE_LOG.Page(0) == [LOG] && ONE_LOG.Page(1) == [];
    assert OldestOf(None, [LOG]) == Some(0) by { assert [LOG][..0] == []; }
    var w := Fetched(ONE_LOG, NO_WINDOW);
    assert w == Window([LOG], Some(0), false, 1, Some(LOG.Key()));
    var w2 := Fetched(ONE_LOG, w);
    assert w2 == Window([LOG], Some(0), true, 2, Some(LOG.Key()));
    assert Ensured(ONE_LOG, w2, -SECOND, NEWAPI_MAX_PAGES) == w2;
    assert Ensured(ONE_LOG, w, -SECOND, NEWAPI_MAX_PAGES) == w2;
  }

  lemma TakesTheLog(g: Round, st: State, id: nat, channel: nat)
    requires g.Valid() && g.used == map[] && g.windowSeconds == 1
    requires id in st.checks && st.checks[id] == NewRow(channel)
    requires channel in g.links && g.links[channel].site.Some? && Usable(g.links[channel].site.value)
    requires g.links[channel].base !in st.contexts && g.upstreams[g.links[channel].base] == ONE_LOG
    ensures var r := Audited(g, st, id, None);
            && r.checks.Keys == st.checks.Keys
            && RefOf(r.checks[id]) == Some(Ref(g.links[channel].site.value.id, 1, 0))
            && (forall x :: x in st.checks && x != id ==> r.checks[x] == st.checks[x])
            && r.contexts.Keys == st.contexts.Keys + {g.links[channel].base}
  {
    hide Ensured;
    OneLogWindow();
    var ctx := Context(g.links[channel].site, NO_WINDOW, {});
    var paged := Paged(g, ONE_LOG, ctx, 0, None);
    assert paged.window.logs == [LOG];
    assert [LOG][..0] == [];
    assert Eligible(g, paged, NewRow(channel), 0, LOG);
    assert Choice(g, paged, NewRow(channel), 0) == Some(LOG);
  }

  /** Two base URLs for one site: each context hands the same log to another request. */
  lemma TwoBasesShareALog(links: map<nat, Link>, c: nat, d: nat)
    requires c in links && d in links && SameUsableSite(links[c], links[d]) && links[c].base != links[d].base
    ensures !AlwaysInjective(links)
  {
    hide Audited;
    var bases := set x | x in links :: links[x].base;
    var g := Round(links, map b | b in bases :: ONE_LOG, map[], 1, 0);
    var t := map[0 := NewRow(c), 1 := NewRow(d)];
    var st0 := State(t, map[]);
    var st1 := Audited(g, st0, 0, None);
    TakesTheLog(g, st0, 0, c);
    TakesTheLog(g, st1, 1, d);
    assert [0, 1][..1] == [0] && [0][..0] == [];
    assert AuditedAll(g, st0, [0]) == st1;
    assert AuditedAll(g, st0, [0, 1]) == Audited(g, st1, 1, None);
    assert !StaysInjective(g, t, [0, 1]);
  }

  /** Matching never hands one log to two requests, exactly if no usable upstream site is reached
      under two base URLs. */
  lemma InjectiveIff(links: map<nat, Link>)
    ensures AlwaysInjective(links) <==> OneBasePerSite(links)
  {
    hide AuditedAll;
    if OneBasePerSite(links) {
      forall g: Round, t: Checks, rows: seq<nat> | g.links == links ensures StaysInjective(g, t, rows) {
        if g.Valid() && g.windowSeconds >= 1 && Reflects(g.used, t) && TableOk(t) && Injective(t) && Selected(t, rows) {
          RoundKeepsInjective(g, State(t, map[]), rows);
        }
      }
    } else {
      var c, d :| c in links && d in links && SameUsableSite(links[c], links[d]) && links[c].base != links[d].base;
      TwoBasesShareALog(links, c, d);
    }
  }

  // ---------------------------------------------------------------------------------------
  // The paged window serves the matching as a full scan would
  // ---------------------------------------------------------------------------------------

  /** If the row's window is covered, no eligible log of the upstream's history strictly inside the
      time window is nearer than the chosen one; in particular a row stays unmatched only if there is
      none. */
  lemma MatchIsNearestOverall(g: Round, u: PagedLog, ctx: Context, row: Check, requestAt: Time, i: nat)
    requires u.Valid() && u.MaxPages() > 0 && Exact(u, ctx.window) && Resumable(u, ctx.window)
    requires var paged := Paged(g, u, ctx, requestAt, None);
             && Covers(paged.window, requestAt - g.windowSeconds * SECOND)
             && First(u) <= i < |u.all|
             && u.all[i].created.Some? && Eligible(g, paged, row, requestAt, u.all[i])
             && requestAt - g.windowSeconds * SECOND < u.all[i].created.value
    ensures var best := Choice(g, Paged(g, u, ctx, requestAt, None), row, requestAt);
            best.Some? && Distance(best.value.created.value, requestAt) <= Distance(u.all[i].created.value, requestAt)
  {
    hide Ensured, Best, Exact, Resumable, Complete, Eligible;
    var target := requestAt - g.windowSeconds * SECOND;
    var paged := Paged(g, u, ctx, requestAt, None);
    EnsureKeeps(u, ctx.window, target, u.MaxPages());
    CoveredHolds(u, paged.window, target);
    var k := CompleteHas(u, paged.window, target, i);
    BestIsNearest(g, paged, row, requestAt, paged.window.logs, k);
  }

  lemma CompleteHas(u: PagedLog, w: Window, target: Time, i: nat) returns (k: nat)
    requires u.MaxPages() > 0 && Complete(u, w, target)
    requires First(u) <= i < |u.all| && u.all[i].created.Some? && target < u.all[i].created.value
    ensures k < |w.logs| && w.logs[k] == u.all[i]
  {
    k :| 0 <= k < |w.logs| && w.logs[k] == u.all[i];
  }

  ghost predicate WindowsOk(g: Round, st: State) {
    forall b :: b in st.contexts ==>
      && b in g.upstreams
      && Exact(g.upstreams[b], st.contexts[b].window) && Resumable(g.upstreams[b], st.contexts[b].window)
      && EndsRightly(g.upstreams[b], st.contexts[b].window)
  }

  /** All contexts of a round satisfy the premise of the previous lemma. */
  lemma {:induction false} RoundWindowsOk(g: Round, st: State, rows: seq<nat>)
    requires g.Valid() && (forall b :: b in g.upstreams ==> g.upstreams[b].Valid())
    requires forall i :: 0 <= i < |rows| ==> rows[i] in st.checks
    requires WindowsOk(g, st)
    ensures WindowsOk(g, AuditedAll(g, st, rows))
  {
    hide Audited, Exact, Resumable, EndsRightly;
    if rows != [] {
      var n := |rows| - 1;
      RoundWindowsOk(g, st, rows[..n]);
      AuditedWindowsOk(g, AuditedAll(g, st, rows[..n]), rows[n]);
    }
  }

  lemma AuditedInWindowsOk(g: Round, st: State, id: nat, link: Link)
    requires link.base in g.upstreams && g.upstreams[link.base].Valid()
    requires id in st.checks && link.base in st.contexts && WindowsOk(g, st)
    ensures WindowsOk(g, AuditedIn(g, st, id, link, None))
  {
    hide Ensured, Best, Exact, Resumable, EndsRightly;
    var row := st.checks[id];
    var u := g.upstreams[link.base];
    if row.requestAt.Some? {
      var target := row.requestAt.value - g.windowSeconds * SECOND;
      EnsureKeeps(u, st.contexts[link.base].window, target, u.MaxPages());
      EnsureEndsRightly(u, st.contexts[link.base].window, target, u.MaxPages());
    }
  }

  lemma AuditedWindowsOk(g: Round, st: State, id: nat)
    requires g.Valid() && (forall b :: b in g.upstreams ==> g.upstreams[b].Valid())
    requires id in st.checks && WindowsOk(g, st)
    ensures WindowsOk(g, Audited(g, st, id, None))
  {
    hide AuditedIn, Exact, Resumable, EndsRightly;
    var row := st.checks[id];
    if row.channel.Some? && row.channel.value in g.links {
      var link := g.links[row.channel.value];
      EmptyWindowOk(g.upstreams[link.base]);
      AuditedInWindowsOk(g, WithContext(st, link), id, link);
    }
  }
}
