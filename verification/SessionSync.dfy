/** The one-time browser-session sync requests of a monitoring site: a request is created,
    claimed by the browser extension, validated against the upstream outside the lock, and
    committed (or ended) under the lock.  Every block the program runs under
    SESSION_SYNC_REQUEST_LOCK is one atomic step here.

    Request ids are random and fresh in the program; here they are numbered in creation order,
    so `<` on ids is "created earlier".  A secret is represented by its hash. */
module SessionSync {

  import opened Options

  datatype Platform = Sub2Api | NewApi | OtherPlatform

  datatype Status =
    | Pending
    | Validating
    | Ready
    | NoSession
    | Expired
    | Failed
    | ExtensionUnavailable
    | PermissionRequired
  {
    predicate Active() {
      Pending? || Validating?
    }
  }

  type SiteId = nat
  type RequestId = nat
  type Time = int

  const TTL_SECONDS := 120

  datatype Tokens = Tokens(access: string, refresh: string, expiresAt: string)

  /** The columns of `sites` that take part in the protocol. */
  datatype Site = Site(
    platform: Platform,
    browserMode: bool,
    origin: string,
    loginEnabled: bool,
    tokens: Tokens,
    syncStatus: Option<Status>,
    syncError: string,
    syncedAt: Time,
    failureKind: string)

  datatype Request = Request(
    site: SiteId,
    platform: Platform,
    origin: string,
    secretHash: int,
    status: Status,
    code: string,
    expiresAt: Time,
    consumedAt: Option<Time>)

  datatype Db = Db(sites: map<SiteId, Site>, requests: map<RequestId, Request>, next: RequestId)

  datatype CreateError = UnsupportedPlatform | NotBrowserMode | InvalidBaseUrl | SiteGone

  datatype ClaimResult = Claimed | NotFound | Consumed | TimedOut | SecretInvalid

  // ---------------------------------------------------------------------------------------
  // The locked steps, as functions on the tables
  // ---------------------------------------------------------------------------------------

  /** A pending or validating request of the site is closed by a newer one. */
  function Replaced(requests: map<RequestId, Request>, site: SiteId): map<RequestId, Request> {
    map id | id in requests ::
      if requests[id].site == site && requests[id].status.Active()
      then requests[id].(status := Expired, code := "REPLACED")
      else requests[id]
  }

  /** The locked part of creation.  `platform` and `origin` were read before the lock was taken.
      The foreign key refuses the insert when the site has been deleted meanwhile. */
  function Created(db: Db, site: SiteId, platform: Platform, origin: string, hash: int, now: Time): Db {
    if site !in db.sites then
      db
    else
      Db(db.sites[site := db.sites[site].(syncStatus := Some(Pending), syncError := "")],
         Replaced(db.requests, site)
           [db.next := Request(site, platform, origin, hash, Pending, "", now + TTL_SECONDS, None)],
         db.next + 1)
  }

  function ClaimOutcome(db: Db, id: RequestId, hash: int, now: Time): ClaimResult {
    if id !in db.requests then NotFound
    else if !db.requests[id].status.Pending? then Consumed
    else if db.requests[id].expiresAt <= now then TimedOut
    else if db.requests[id].secretHash != hash then SecretInvalid
    else Claimed
  }

  function WithSiteStatus(sites: map<SiteId, Site>, site: SiteId, status: Status, error: string)
    : map<SiteId, Site>
  {
    if site in sites then sites[site := sites[site].(syncStatus := Some(status), syncError := error)]
    else sites
  }

  function AfterClaim(db: Db, id: RequestId, hash: int, now: Time): Db {
    match ClaimOutcome(db, id, hash, now)
    case Claimed =>
      var r := db.requests[id];
      db.(requests := db.requests[id := r.(status := Validating, consumedAt := Some(now))],
          sites := WithSiteStatus(db.sites, r.site, Validating, ""))
    case TimedOut =>
      var r := db.requests[id];
      db.(requests := db.requests[id := r.(status := Expired, code := "SYNC_REQUEST_EXPIRED")],
          sites := WithSiteStatus(db.sites, r.site, Expired, "request expired"))
    case _ => db
  }

  /** Another request is validating for the same site, platform and origin. */
  predicate OtherActive(requests: map<RequestId, Request>, id: RequestId, r: Request) {
    exists j :: j in requests && j != id && requests[j].site == r.site &&
      requests[j].platform == r.platform && requests[j].origin == r.origin &&
      requests[j].status.Validating?
  }

  /** `finish_session_sync_request`: the request ends, and the site shows how, unless another
      request has become the active one. */
  function AfterFinish(db: Db, id: RequestId, status: Status, code: string, message: string, now: Time): Db {
    if id !in db.requests || !db.requests[id].status.Active() then
      db
    else
      var r := db.requests[id];
      var requests := db.requests[id := r.(status := status, code := code)];
      if r.platform.OtherPlatform? || OtherActive(requests, id, r) || r.site !in db.sites
         || db.sites[r.site].platform != r.platform || !db.sites[r.site].browserMode then
        db.(requests := requests)
      else
        var s := db.sites[r.site];
        db.(requests := requests,
            sites := db.sites[r.site :=
              s.(syncStatus := Some(status), syncError := message,
                 syncedAt := if status.Ready? then now else s.syncedAt)])
  }

  /** A completion of `platform` may still write: site and request are re-read together. */
  predicate StillCurrent(db: Db, site: SiteId, id: RequestId, origin: string, platform: Platform) {
    && origin != ""
    && site in db.sites
    && db.sites[site].platform == platform
    && db.sites[site].browserMode
    && db.sites[site].origin == origin
    && id in db.requests
    && db.requests[id].site == site
    && db.requests[id].status.Validating?
    && db.requests[id].platform == platform
    && db.requests[id].origin == origin
  }

  function WithSession(s: Site, tokens: Tokens, now: Time): Site {
    s.(browserMode := true, loginEnabled := true, tokens := tokens,
       syncStatus := Some(Ready), syncError := "", syncedAt := now)
  }

  function AfterCommit(db: Db, site: SiteId, id: RequestId, origin: string, tokens: Tokens, now: Time): Db {
    if StillCurrent(db, site, id, origin, Sub2Api)
    then db.(sites := db.sites[site := WithSession(db.sites[site], tokens, now)])
    else db
  }

  function AfterReject(db: Db, site: SiteId, id: RequestId, origin: string, message: string): Db {
    if StillCurrent(db, site, id, origin, Sub2Api)
    then db.(sites := db.sites[site :=
           db.sites[site].(syncStatus := Some(Expired), syncError := message, failureKind := "auth_expired")])
    else db
  }

  // ---------------------------------------------------------------------------------------
  // The tables and the program's writes to them
  // ---------------------------------------------------------------------------------------

  class Store {
    var sites: map<SiteId, Site>
    var requests: map<RequestId, Request>
    var next: RequestId

    constructor ()
      ensures Snapshot() == START
    {
      sites, requests, next := map[], map[], 0;
    }

    function Snapshot(): Db
      reads this
    {
      Db(sites, requests, next)
    }

    /** `_create_session_sync_request` for a target row read before the lock. */
    method Create(site: SiteId, target: Site, hash: int, now: Time)
      returns (id: Option<RequestId>, error: Option<CreateError>)
      modifies this
      ensures error == (if target.platform.OtherPlatform? then Some(UnsupportedPlatform)
                        else if !target.browserMode then Some(NotBrowserMode)
                        else if target.origin == "" then Some(InvalidBaseUrl)
                        else if site !in old(sites) then Some(SiteGone)
                        else None)
      ensures error.Some? ==> id == None && Snapshot() == old(Snapshot())
      ensures error.None? ==>
                && id == Some(old(next))
                && Snapshot() == Created(old(Snapshot()), site, target.platform, target.origin, hash, now)
    {
      if target.platform.OtherPlatform? {
        return None, Some(UnsupportedPlatform);
      }
      if !target.browserMode {
        return None, Some(NotBrowserMode);
      }
      if target.origin == "" {
        return None, Some(InvalidBaseUrl);
      }
      if site !in sites {
        return None, Some(SiteGone);
      }
      requests := map i | i in requests ::
        if requests[i].site == site && requests[i].status.Active()
        then requests[i].(status := Expired, code := "REPLACED")
        else requests[i];
      id := Some(next);
      requests := requests[next :=
        Request(site, target.platform, target.origin, hash, Pending, "", now + TTL_SECONDS, None)];
      next := next + 1;
      sites := sites[site := sites[site].(syncStatus := Some(Pending), syncError := "")];
      error := None;
    }

    method Claim(id: RequestId, hash: int, now: Time) returns (result: ClaimResult)
      modifies this
      ensures result == ClaimOutcome(old(Snapshot()), id, hash, now)
      ensures Snapshot() == AfterClaim(old(Snapshot()), id, hash, now)
    {
      if id !in requests {
        return NotFound;
      }
      var row := requests[id];
      if !row.status.Pending? {
        return Consumed;
      }
      if row.expiresAt <= now {
        requests := requests[id := row.(status := Expired, code := "SYNC_REQUEST_EXPIRED")];
        if row.site in sites {
          sites := sites[row.site :=
            sites[row.site].(syncStatus := Some(Expired), syncError := "request expired")];
        }
        return TimedOut;
      }
      if row.secretHash != hash {
        return SecretInvalid;
      }
      requests := requests[id := row.(status := Validating, consumedAt := Some(now))];
      if row.site in sites {
        sites := sites[row.site := sites[row.site].(syncStatus := Some(Validating), syncError := "")];
      }
      result := Claimed;
    }

    method Finish(id: RequestId, status: Status, code: string, message: string, now: Time) returns (ended: bool)
      requires !status.Active()
      modifies this
      ensures ended == (id in old(requests) && old(requests)[id].status.Active())
      ensures Snapshot() == AfterFinish(old(Snapshot()), id, status, code, message, now)
    {
      if id !in requests || !requests[id].status.Active() {
        return false;
      }
      var row := requests[id];
      requests := requests[id := row.(status := status, code := code)];
      ended := true;
      if row.platform.OtherPlatform? {
        return;
      }
      // the row is terminal now, so any validating row for the target is another request
      if OtherActive(requests, id, row) {
        return;
      }
      if row.site in sites && sites[row.site].platform == row.platform && sites[row.site].browserMode {
        var s := sites[row.site];
        sites := sites[row.site :=
          s.(syncStatus := Some(status), syncError := message,
             syncedAt := if status.Ready? then now else s.syncedAt)];
      }
    }

    /** The locked tail of `apply_sub2api_browser_session` after a successful validation: the
        re-check, then the conditional write. */
    method Commit(site: SiteId, id: RequestId, origin: string, tokens: Tokens, now: Time) returns (applied: bool)
      modifies this
      ensures applied == StillCurrent(old(Snapshot()), site, id, origin, Sub2Api)
      ensures Snapshot() == AfterCommit(old(Snapshot()), site, id, origin, tokens, now)
    {
      if !StillCurrent(Snapshot(), site, id, origin, Sub2Api) {
        return false;
      }
      applied := WriteSession(site, id, origin, tokens, now);
    }

    /** `persist_site_browser_session` with a request id: the compare-and-swap itself, which does
        not look at the site's own origin. */
    method WriteSession(site: SiteId, id: RequestId, origin: string, tokens: Tokens, now: Time)
      returns (written: bool)
      modifies this
      ensures requests == old(requests) && next == old(next)
      ensures written ==
              (origin != "" && site in old(sites) && old(sites)[site].platform.Sub2Api? && old(sites)[site].browserMode
               && id in requests && requests[id].site == site && requests[id].platform.Sub2Api?
               && requests[id].origin == origin && requests[id].status.Validating?)
      ensures sites == if written then old(sites)[site := WithSession(old(sites)[site], tokens, now)] else old(sites)
    {
      written := origin != "" && site in sites && sites[site].platform.Sub2Api? && sites[site].browserMode
        && id in requests && requests[id].site == site && requests[id].platform.Sub2Api?
        && requests[id].origin == origin && requests[id].status.Validating?;
      if written {
        sites := sites[site :=
          sites[site].(browserMode := true, loginEnabled := true, tokens := tokens,
                       syncStatus := Some(Ready), syncError := "", syncedAt := now)];
      }
    }

    /** The locked tail of `apply_sub2api_browser_session` after a failed validation. */
    method Reject(site: SiteId, id: RequestId, origin: string, message: string) returns (marked: bool)
      modifies this
      ensures marked == StillCurrent(old(Snapshot()), site, id, origin, Sub2Api)
      ensures Snapshot() == AfterReject(old(Snapshot()), site, id, origin, message)
    {
      marked := StillCurrent(Snapshot(), site, id, origin, Sub2Api);
      if marked {
        sites := sites[site :=
          sites[site].(syncStatus := Some(Expired), syncError := message, failureKind := "auth_expired")];
      }
    }
  }

  // ---------------------------------------------------------------------------------------
  // Interleavings
  // ---------------------------------------------------------------------------------------

  /** One atomic step of anybody.  Steps of several completions, of the page that polls or fails a
      request (both end in `Finish`), of user edits and of other credential writers come in any
      order; `now` is whatever the clock shows.  `Create` carries the platform and origin its
      caller read, possibly long before.  `WafMark` is the unconditional note a
      completion leaves when the upstream's edge blocked its validation; `NewApiWrite` is the
      unconditional credential write at the end of the NewAPI completion of request `id`, which
      had found the target unchanged for `origin` some steps before. */
  datatype Event =
    | Create(site: SiteId, platform: Platform, origin: string, hash: int, now: Time)
    | Claim(id: RequestId, hash: int, now: Time)
    | Finish(id: RequestId, status: Status, code: string, message: string, now: Time)
    | Commit(site: SiteId, id: RequestId, origin: string, tokens: Tokens, now: Time)
    | Reject(site: SiteId, id: RequestId, origin: string, message: string)
    | WafMark(id: RequestId, site: SiteId)
    | Edit(site: SiteId, row: Site)
    | Delete(site: SiteId)
    | NewApiWrite(id: RequestId, site: SiteId, origin: string, tokens: Tokens, now: Time)

  function Step(db: Db, e: Event): Db {
    match e
    case Create(site, platform, origin, hash, now) => Created(db, site, platform, origin, hash, now)
    case Claim(id, hash, now) => AfterClaim(db, id, hash, now)
    case Finish(id, status, code, message, now) =>
      if status.Active() then db else AfterFinish(db, id, status, code, message, now)
    case Commit(site, id, origin, tokens, now) => AfterCommit(db, site, id, origin, tokens, now)
    case Reject(site, id, origin, message) => AfterReject(db, site, id, origin, message)
    case WafMark(_, site) =>
      if site in db.sites then db.(sites := db.sites[site := db.sites[site].(failureKind := "waf")]) else db
    case Edit(site, row) => db.(sites := db.sites[site := row])
    case Delete(site) =>
      db.(sites := db.sites - {site},
          requests := map id | id in db.requests && db.requests[id].site != site :: db.requests[id])
    case NewApiWrite(_, site, _, tokens, now) =>
      if site in db.sites then db.(sites := db.sites[site := WithSession(db.sites[site], tokens, now)]) else db
  }

  /** The request on whose behalf a step runs.  NewAPI writes have a law of their own below. */
  function Actor(e: Event): Option<RequestId> {
    match e
    case Claim(id, _, _) => Some(id)
    case Finish(id, _, _, _, _) => Some(id)
    case Commit(_, id, _, _, _) => Some(id)
    case Reject(_, id, _, _) => Some(id)
    case WafMark(id, _) => Some(id)
    case _ => None
  }

  const START := Db(map[], map[], 0)

  function Run(db: Db, es: seq<Event>): Db
    decreases |es|
  {
    if es == [] then db else Run(Step(db, es[0]), es[1..])
  }

  ghost predicate Inv(db: Db) {
    && (forall id :: id in db.requests ==> id < db.next && db.requests[id].site in db.sites)
    && (forall i, j :: i in db.requests && j in db.requests && i < j && db.requests[i].site == db.requests[j].site
          ==> !db.requests[i].status.Active())
  }

  /** A newer request for the same site exists. */
  ghost predicate Superseded(db: Db, id: RequestId) {
    id in db.requests && exists j :: j in db.requests && id < j && db.requests[j].site == db.requests[id].site
  }

  lemma CreateKeepsInv(db: Db, site: SiteId, platform: Platform, origin: string, hash: int, now: Time)
    requires Inv(db)
    ensures Inv(Created(db, site, platform, origin, hash, now))
  {
  }

  /** The columns of sites may change, and a request may move on, but not become active again. */
  lemma UpdateKeepsInv(db: Db, sites: map<SiteId, Site>, id: RequestId, r: Request)
    requires Inv(db) && db.sites.Keys <= sites.Keys && id in db.requests
    requires r.site == db.requests[id].site && (r.status.Active() ==> db.requests[id].status.Active())
    ensures Inv(db.(sites := sites, requests := db.requests[id := r]))
  {
  }

  lemma SitesKeepInv(db: Db, sites: map<SiteId, Site>)
    requires Inv(db) && db.sites.Keys <= sites.Keys
    ensures Inv(db.(sites := sites))
  {
  }

  lemma ClaimKeepsInv(db: Db, id: RequestId, hash: int, now: Time)
    requires Inv(db)
    ensures Inv(AfterClaim(db, id, hash, now))
  {
    hide Inv;
    var after := AfterClaim(db, id, hash, now);
    if id in db.requests {
      UpdateKeepsInv(db, after.sites, id, after.requests[id]);
      assert after == db || after == db.(sites := after.sites, requests := db.requests[id := after.requests[id]]);
    }
  }

  lemma FinishKeepsInv(db: Db, id: RequestId, status: Status, code: string, message: string, now: Time)
    requires Inv(db) && !status.Active()
    ensures Inv(AfterFinish(db, id, status, code, message, now))
  {
    hide Inv, OtherActive;
    var after := AfterFinish(db, id, status, code, message, now);
    if id in db.requests {
      UpdateKeepsInv(db, after.sites, id, after.requests[id]);
      assert after == db || after == db.(sites := after.sites, requests := db.requests[id := after.requests[id]]);
    }
  }

  lemma DeleteKeepsInv(db: Db, site: SiteId)
    requires Inv(db)
    ensures Inv(Step(db, Delete(site)))
  {
  }

  lemma StepKeepsInv(db: Db, e: Event)
    requires Inv(db)
    ensures Inv(Step(db, e))
  {
    hide Inv, Created, AfterClaim, AfterFinish, StillCurrent;
    match e
    case Create(site, platform, origin, hash, now) => CreateKeepsInv(db, site, platform, origin, hash, now);
    case Claim(id, hash, now) => ClaimKeepsInv(db, id, hash, now);
    case Finish(id, status, code, message, now) =>
      if !status.Active() { FinishKeepsInv(db, id, status, code, message, now); }
    case Delete(site) => DeleteKeepsInv(db, site);
    case _ =>
      var after := Step(db, e);
      SitesKeepInv(db, after.sites);
      assert after == db.(sites := after.sites);
  }

  lemma {:induction false} RunKeepsInv(db: Db, es: seq<Event>)
    requires Inv(db)
    ensures Inv(Run(db, es))
    decreases |es|
  {
    if es != [] {
      StepKeepsInv(db, es[0]);
      RunKeepsInv(Step(db, es[0]), es[1..]);
    }
  }

  /** At most one request of a site is pending or validating, in every reachable state. */
  lemma OneActivePerSite(es: seq<Event>, i: RequestId, j: RequestId)
    requires var db := Run(START, es);
             i in db.requests && j in db.requests && db.requests[i].site == db.requests[j].site &&
             db.requests[i].status.Active() && db.requests[j].status.Active()
    ensures i == j
  {
    RunKeepsInv(START, es);
  }

  /** Hence the "another request is active" exit of finish is never taken in-process. */
  lemma FinishNeverYields(es: seq<Event>, id: RequestId, status: Status, code: string)
    requires id in Run(START, es).requests
    requires Run(START, es).requests[id].status.Active() && !status.Active()
    ensures var db := Run(START, es);
            var r := db.requests[id];
            !OtherActive(db.requests[id := r.(status := status, code := code)], id, r)
  {
    RunKeepsInv(START, es);
  }

  /** Two states that agree on everything but the sites' failure kinds. */
  ghost predicate SameUpToFailureKind(a: Db, b: Db) {
    && a.requests == b.requests && a.next == b.next && a.sites.Keys == b.sites.Keys
    && forall s :: s in a.sites ==> a.sites[s].(failureKind := b.sites[s].failureKind) == b.sites[s]
  }

  lemma SupersededIsInert(db: Db, e: Event)
    requires Inv(db)
    requires Actor(e).Some?
    requires Actor(e).value !in db.requests || Superseded(db, Actor(e).value)
    ensures !e.WafMark? ==> Step(db, e) == db
    ensures SameUpToFailureKind(db, Step(db, e))
  {
  }

  /** Once created, `newer` stays on record for as long as any older request of its site does. */
  ghost predicate Overtaken(db: Db, site: SiteId, newer: RequestId) {
    && newer < db.next
    && forall id :: id in db.requests && db.requests[id].site == site && id < newer
         ==> newer in db.requests && db.requests[newer].site == site
  }

  lemma StepKeepsOvertaken(db: Db, e: Event, site: SiteId, newer: RequestId)
    requires Overtaken(db, site, newer)
    ensures Overtaken(Step(db, e), site, newer)
  {
    hide StillCurrent, OtherActive, WithSiteStatus, WithSession;
  }

  lemma {:induction false} OvertakenLasts(db: Db, es: seq<Event>, site: SiteId, newer: RequestId)
    requires Inv(db) && Overtaken(db, site, newer)
    ensures Inv(Run(db, es)) && Overtaken(Run(db, es), site, newer)
    decreases |es|
  {
    hide Step, Overtaken;
    if es != [] {
      StepKeepsInv(db, es[0]);
      StepKeepsOvertaken(db, es[0], site, newer);
      OvertakenLasts(Step(db, es[0]), es[1..], site, newer);
    }
  }

  /** The ordering law.  After any history `before`, a request is created for `site`; after any
      further steps `between`, whatever step `late` an older request of that site takes changes
      nothing at all: no token, no expiry mark, no status, and no request.  The one exception is
      the unconditional WAF note, which changes `session_failure_kind` only. */
  lemma OlderRequestChangesNothing(before: seq<Event>, create: Event, between: seq<Event>, late: Event)
    requires create.Create?
    requires var db := Run(START, before); create.site in db.sites
    requires Actor(late).Some?
    requires var newer := Run(START, before).next;
             var db := Run(Step(Run(START, before), create), between);
             Actor(late).value < newer &&
             (Actor(late).value in db.requests ==> db.requests[Actor(late).value].site == create.site)
    ensures var db := Run(Step(Run(START, before), create), between);
            (!late.WafMark? ==> Step(db, late) == db) && SameUpToFailureKind(db, Step(db, late))
  {
    var db0 := Run(START, before);
    RunKeepsInv(START, before);
    var db1 := Step(db0, create);
    StepKeepsInv(db0, create);
    OvertakenLasts(db1, between, create.site, db0.next);
    var db := Run(db1, between);
    SupersededIsInert(db, late);
  }

  /** The requests whose completions wrote `site`'s tokens, in the order of the writes. */
  function Writers(db: Db, es: seq<Event>, site: SiteId): seq<RequestId>
    decreases |es|
  {
    if es == [] then []
    else
      (if es[0].Commit? && es[0].site == site && StillCurrent(db, site, es[0].id, es[0].origin, Sub2Api)
       then [es[0].id] else [])
      + Writers(Step(db, es[0]), es[1..], site)
  }

  ghost predicate Ascending(ids: seq<RequestId>) {
    forall i, j :: 0 <= i < j < |ids| ==> ids[i] <= ids[j]
  }

  lemma {:induction false} WritersAscendFrom(db: Db, es: seq<Event>, site: SiteId, floor: RequestId)
    requires Inv(db) && floor <= db.next
    requires forall id :: id in db.requests && db.requests[id].site == site && db.requests[id].status.Active() ==> floor <= id
    ensures Ascending(Writers(db, es, site))
    ensures forall id :: id in Writers(db, es, site) ==> floor <= id
    decreases |es|
  {
    if es != [] {
      StepKeepsInv(db, es[0]);
      var wrote := es[0].Commit? && es[0].site == site && StillCurrent(db, site, es[0].id, es[0].origin, Sub2Api);
      WritersAscendFrom(Step(db, es[0]), es[1..], site, if wrote then es[0].id else floor);
      var rest := Writers(Step(db, es[0]), es[1..], site);
      var all := (if wrote then [es[0].id] else []) + rest;
      assert Writers(db, es, site) == all;
      forall i, j | 0 <= i < j < |all|
        ensures all[i] <= all[j]
      {
        assert wrote ==> all[j] == rest[j - 1] && rest[j - 1] in rest;
      }
    }
  }

  /** Over every interleaving, sub2api completions write a site's tokens in creation order. */
  lemma TokensWrittenInCreationOrder(es: seq<Event>, site: SiteId)
    ensures Ascending(Writers(START, es, site))
  {
    WritersAscendFrom(START, es, site, 0);
  }

  ghost predicate CommitsOnce(es: seq<Event>) {
    forall i, j :: 0 <= i < j < |es| && es[i].Commit? && es[j].Commit? ==> es[i].id != es[j].id
  }

  ghost predicate HasCommit(es: seq<Event>, id: RequestId) {
    exists i :: 0 <= i < |es| && es[i].Commit? && es[i].id == id
  }

  ghost predicate StrictlyAscending(ids: seq<RequestId>) {
    forall i, j :: 0 <= i < j < |ids| ==> ids[i] < ids[j]
  }

  lemma {:induction false} WritersCommitted(db: Db, es: seq<Event>, site: SiteId, id: RequestId)
    requires id in Writers(db, es, site)
    ensures HasCommit(es, id)
    decreases |es|
  {
    if id in Writers(Step(db, es[0]), es[1..], site) {
      WritersCommitted(Step(db, es[0]), es[1..], site, id);
      var i :| 0 <= i < |es[1..]| && es[1..][i].Commit? && es[1..][i].id == id;
      assert es[i + 1].id == id;
    } else {
      assert es[0].Commit? && es[0].id == id;
    }
  }

  lemma {:induction false} WritersDiffer(db: Db, es: seq<Event>, site: SiteId)
    requires CommitsOnce(es)
    ensures var w := Writers(db, es, site); forall i, j :: 0 <= i < j < |w| ==> w[i] != w[j]
    decreases |es|
  {
    if es != [] {
      var rest := Writers(Step(db, es[0]), es[1..], site);
      assert CommitsOnce(es[1..]);
      WritersDiffer(Step(db, es[0]), es[1..], site);
      forall j | 0 <= j < |rest| ensures es[0].Commit? ==> rest[j] != es[0].id {
        WritersCommitted(Step(db, es[0]), es[1..], site, rest[j]);
        var i :| 0 <= i < |es[1..]| && es[1..][i].Commit? && es[1..][i].id == rest[j];
        assert es[i + 1] == es[1..][i];
      }
    }
  }

  lemma {:induction false} TerminalIsAbsorbing(db: Db, es: seq<Event>, id: RequestId)
    requires Inv(db)
    requires id in db.requests && !db.requests[id].status.Active()
    ensures id in Run(db, es).requests ==> Run(db, es).requests[id] == db.requests[id]
    decreases |es|
  {
    if es != [] {
      StepKeepsInv(db, es[0]);
      var db1 := Step(db, es[0]);
      if id in db1.requests {
        TerminalIsAbsorbing(db1, es[1..], id);
      } else {
        GoneForGood(db1, es[1..], id);
      }
    }
  }

  lemma {:induction false} GoneForGood(db: Db, es: seq<Event>, id: RequestId)
    requires Inv(db) && id < db.next && id !in db.requests
    ensures id !in Run(db, es).requests
    ensures Claims(db, es, id) == 0
    decreases |es|
  {
    if es != [] {
      StepKeepsInv(db, es[0]);
      GoneForGood(Step(db, es[0]), es[1..], id);
    }
  }

  /** How often the request is claimed successfully. */
  function Claims(db: Db, es: seq<Event>, id: RequestId): nat
    decreases |es|
  {
    if es == [] then 0
    else
      (if es[0].Claim? && es[0].id == id && ClaimOutcome(db, id, es[0].hash, es[0].now).Claimed? then 1 else 0)
      + Claims(Step(db, es[0]), es[1..], id)
  }

  lemma {:induction false} ClaimedAtMostOnce(db: Db, es: seq<Event>, id: RequestId)
    requires Inv(db)
    ensures Claims(db, es, id) <= 1
    ensures id in db.requests && !db.requests[id].status.Pending? ==> Claims(db, es, id) == 0
    decreases |es|
  {
    if es != [] {
      StepKeepsInv(db, es[0]);
      var db1 := Step(db, es[0]);
      if id in db.requests && id !in db1.requests {
        GoneForGood(db1, es[1..], id);
      } else {
        ClaimedAtMostOnce(db1, es[1..], id);
      }
    }
  }

  /** How often a completion of the request comes to its commit, successful or not. */
  function Commits(es: seq<Event>, id: RequestId): nat {
    if es == [] then 0
    else (if es[0].Commit? && es[0].id == id then 1 else 0) + Commits(es[1..], id)
  }

  lemma {:induction false} TwoCommits(es: seq<Event>, i: nat, j: nat)
    requires i < j < |es| && es[i].Commit? && es[j].Commit? && es[i].id == es[j].id
    ensures Commits(es, es[j].id) >= 2
  {
    if i == 0 {
      OneCommit(es[1..], j - 1);
    } else {
      TwoCommits(es[1..], i - 1, j - 1);
    }
  }

  lemma {:induction false} OneCommit(es: seq<Event>, j: nat)
    requires j < |es| && es[j].Commit?
    ensures Commits(es, es[j].id) >= 1
  {
    if j > 0 { OneCommit(es[1..], j - 1); }
  }

  /** A completion starts with a successful claim and commits at most once.  As no request is claimed
      twice, each write of a site's tokens is then by a strictly newer request. */
  lemma TokensWrittenInStrictOrder(es: seq<Event>, site: SiteId)
    requires forall id :: Commits(es, id) <= Claims(START, es, id)
    ensures StrictlyAscending(Writers(START, es, site))
  {
    forall i, j | 0 <= i < j < |es| && es[i].Commit? && es[j].Commit? ensures es[i].id != es[j].id {
      if es[i].id == es[j].id {
        TwoCommits(es, i, j);
        ClaimedAtMostOnce(START, es, es[j].id);
      }
    }
    TokensWrittenInCreationOrder(es, site);
    WritersDiffer(START, es, site);
  }

  /** A completion that is not overtaken does succeed: claim, validate, commit, finish. */
  lemma CompletionSucceeds(db: Db, id: RequestId, hash: int, tokens: Tokens, t0: Time, t1: Time, t2: Time)
    requires Inv(db) && id in db.requests
    requires ClaimOutcome(db, id, hash, t0).Claimed?
    requires var r := db.requests[id];
             r.platform.Sub2Api? && r.origin != "" && db.sites[r.site].platform.Sub2Api? &&
             db.sites[r.site].browserMode && db.sites[r.site].origin == r.origin
    ensures var r := db.requests[id];
            var db' := Run(db, [Claim(id, hash, t0), Commit(r.site, id, r.origin, tokens, t1), Finish(id, Ready, "", "", t2)]);
            && id in db'.requests
            && db'.requests[id].status == Ready
            && db'.requests[id].consumedAt == Some(t0)
            && db'.sites == db.sites[r.site := WithSession(db.sites[r.site], tokens, t2)]
  {
    var r := db.requests[id];
    var es := [Claim(id, hash, t0), Commit(r.site, id, r.origin, tokens, t1), Finish(id, Ready, "", "", t2)];
    var db1 := Step(db, es[0]);
    var db2 := Step(db1, es[1]);
    var db3 := Step(db2, es[2]);
    StepKeepsInv(db, es[0]);
    assert StillCurrent(db1, r.site, id, r.origin, Sub2Api);
    assert !OtherActive(db2.requests[id := db2.requests[id].(status := Ready, code := "")], id, db2.requests[id]);
    assert es[1..] == [es[1], es[2]] && es[1..][1..] == [es[2]] && es[1..][1..][1..] == [];
    assert Run(db, es) == Run(db1, es[1..]) == Run(db2, es[1..][1..]) == Run(db3, es[1..][1..][1..]) == db3;
  }

  // ---------------------------------------------------------------------------------------
  // The NewAPI completion: checked, then written without a condition
  // ---------------------------------------------------------------------------------------

  /** The requests whose NewAPI completions wrote the site's tokens, in the order of the writes. */
  function NewApiWriters(db: Db, es: seq<Event>, site: SiteId): seq<RequestId>
    decreases |es|
  {
    if es == [] then []
    else
      (if es[0].NewApiWrite? && es[0].site == site && site in db.sites then [es[0].id] else [])
      + NewApiWriters(Step(db, es[0]), es[1..], site)
  }

  /** Every NewAPI write that finds its site happens while its request is still current, as
      `persist_newapi_site_browser_session_cas` would make sure. */
  predicate Guarded(db: Db, es: seq<Event>)
    decreases |es|
  {
    es != [] ==>
      && (es[0].NewApiWrite? && es[0].site in db.sites ==> StillCurrent(db, es[0].site, es[0].id, es[0].origin, NewApi))
      && Guarded(Step(db, es[0]), es[1..])
  }

  lemma {:induction false} GuardedWritesAscendFrom(db: Db, es: seq<Event>, site: SiteId, floor: RequestId)
    requires Inv(db) && floor <= db.next && Guarded(db, es)
    requires forall id :: id in db.requests && db.requests[id].site == site && db.requests[id].status.Active() ==> floor <= id
    ensures Ascending(NewApiWriters(db, es, site))
    ensures forall id :: id in NewApiWriters(db, es, site) ==> floor <= id
    decreases |es|
  {
    if es != [] {
      StepKeepsInv(db, es[0]);
      var wrote := es[0].NewApiWrite? && es[0].site == site && site in db.sites;
      GuardedWritesAscendFrom(Step(db, es[0]), es[1..], site, if wrote then es[0].id else floor);
      var rest := NewApiWriters(Step(db, es[0]), es[1..], site);
      var all := (if wrote then [es[0].id] else []) + rest;
      assert NewApiWriters(db, es, site) == all;
      forall i, j | 0 <= i < j < |all|
        ensures all[i] <= all[j]
      {
        assert wrote ==> all[j] == rest[j - 1] && rest[j - 1] in rest;
      }
    }
  }

  /** If every write is guarded, NewAPI completions write a site's tokens in creation order too. */
  lemma GuardedNewApiWritesAscend(es: seq<Event>, site: SiteId)
    requires Guarded(START, es)
    ensures Ascending(NewApiWriters(START, es, site))
  {
    GuardedWritesAscendFrom(START, es, site, 0);
  }

  ghost predicate ActiveOn(db: Db, site: SiteId, id: RequestId) {
    id in db.requests && db.requests[id].site == site && db.requests[id].status.Active()
  }

  /** A request that is active later than another of its site is no older. */
  lemma LaterActiveIsNewer(db: Db, es: seq<Event>, site: SiteId, j: RequestId, id: RequestId)
    requires Inv(db) && ActiveOn(db, site, j) && ActiveOn(Run(db, es), site, id)
    ensures j <= id
  {
    RunKeepsInv(db, es);
    if id < j {
      if id in db.requests {
        SitesAreFixed(db, es, id);
        TerminalIsAbsorbing(db, es, id);
      } else {
        GoneForGood(db, es, id);
      }
    }
  }

  lemma {:induction false} SitesAreFixed(db: Db, es: seq<Event>, id: RequestId)
    requires Inv(db) && id in db.requests && id in Run(db, es).requests
    ensures Run(db, es).requests[id].site == db.requests[id].site
    decreases |es|
  {
    if es != [] {
      StepKeepsInv(db, es[0]);
      var db1 := Step(db, es[0]);
      if id !in db1.requests {
        GoneForGood(db1, es[1..], id);
      } else {
        SitesAreFixed(db1, es[1..], id);
      }
    }
  }

  /** Step `k` is a NewAPI write that finds the site. */
  predicate Writes(db: Db, es: seq<Event>, site: SiteId, k: nat) {
    k < |es| && es[k].NewApiWrite? && es[k].site == site && site in Run(db, es[..k]).sites
  }

  lemma WritesFromNext(db: Db, es: seq<Event>, site: SiteId, k: nat)
    requires 0 < k < |es|
    ensures Writes(db, es, site, k) <==> Writes(Step(db, es[0]), es[1..], site, k - 1)
  {
    assert es[..k][1..] == es[1..][..k - 1];
  }

  lemma {:induction false} WriterIff(db: Db, es: seq<Event>, site: SiteId, id: RequestId)
    ensures id in NewApiWriters(db, es, site) <==> exists k: nat :: Writes(db, es, site, k) && es[k].id == id
    decreases |es|
  {
    if es != [] {
      var db1, rest := Step(db, es[0]), es[1..];
      WriterIff(db1, rest, site, id);
      FirstWrites(db, es, site);
      hide Step, Run;
      if k: nat :| Writes(db, es, site, k) && es[k].id == id {
        if k > 0 {
          WritesFromNext(db, es, site, k);
          assert rest[k - 1].id == id;
        }
      }
      if k: nat :| Writes(db1, rest, site, k) && rest[k].id == id {
        WritesFromNext(db, es, site, k + 1);
        assert es[k + 1].id == id;
      }
    }
  }

  lemma FirstWrites(db: Db, es: seq<Event>, site: SiteId)
    requires es != []
    ensures Writes(db, es, site, 0) <==> es[0].NewApiWrite? && es[0].site == site && site in db.sites
  {
    assert es[..0] == [];
  }

  ghost predicate WritesInOrder(db: Db, es: seq<Event>, site: SiteId) {
    forall m: nat, k: nat :: m < k && Writes(db, es, site, m) && Writes(db, es, site, k) ==> es[m].id <= es[k].id
  }

  /** The request behind a later write is no older than `floor`. */
  ghost predicate LaterWritesFrom(db: Db, es: seq<Event>, site: SiteId, floor: RequestId) {
    forall k: nat :: k > 0 && Writes(db, es, site, k) ==> floor <= es[k].id
  }

  lemma InOrderFromNext(db: Db, es: seq<Event>, site: SiteId)
    requires es != []
    ensures WritesInOrder(db, es, site) <==>
              && WritesInOrder(Step(db, es[0]), es[1..], site)
              && (Writes(db, es, site, 0) ==> LaterWritesFrom(db, es, site, es[0].id))
  {
    hide Step, Run;
    var db1, rest := Step(db, es[0]), es[1..];
    forall k: nat | 0 < k < |es| ensures Writes(db, es, site, k) <==> Writes(db1, rest, site, k - 1) {
      WritesFromNext(db, es, site, k);
    }
    if WritesInOrder(db, es, site) {
      forall m: nat, k: nat | m < k && Writes(db1, rest, site, m) && Writes(db1, rest, site, k)
        ensures rest[m].id <= rest[k].id
      {
        assert Writes(db, es, site, m + 1) && Writes(db, es, site, k + 1);
      }
    }
    if WritesInOrder(db1, rest, site) {
      forall m: nat, k: nat | 0 < m < k && Writes(db, es, site, m) && Writes(db, es, site, k)
        ensures es[m].id <= es[k].id
      {
        assert Writes(db1, rest, site, m - 1) && Writes(db1, rest, site, k - 1);
        assert rest[m - 1].id <= rest[k - 1].id;
      }
    }
  }

  ghost predicate NoneBelow(ids: seq<RequestId>, floor: RequestId) {
    forall j :: j in ids ==> floor <= j
  }

  lemma AscendingFront(id: RequestId, ids: seq<RequestId>)
    ensures Ascending([id] + ids) <==> Ascending(ids) && NoneBelow(ids, id)
  {
    var all := [id] + ids;
    if Ascending(all) {
      forall i, j | 0 <= i < j < |ids| ensures ids[i] <= ids[j] { assert all[i + 1] <= all[j + 1]; }
      forall j | j in ids ensures id <= j {
        var i :| 0 <= i < |ids| && ids[i] == j;
        assert all[0] <= all[i + 1];
      }
    }
    if Ascending(ids) && NoneBelow(ids, id) {
      forall i, j | 0 <= i < j < |all| ensures all[i] <= all[j] {
        assert all[j] == ids[j - 1] && ids[j - 1] in ids;
      }
    }
  }

  lemma {:induction false} AscendingIffInOrder(db: Db, es: seq<Event>, site: SiteId)
    ensures Ascending(NewApiWriters(db, es, site)) <==> WritesInOrder(db, es, site)
    decreases |es|
  {
    if es != [] {
      var db1 := Step(db, es[0]);
      var rest := NewApiWriters(db1, es[1..], site);
      AscendingIffInOrder(db1, es[1..], site);
      InOrderFromNext(db, es, site);
      FirstWrites(db, es, site);
      hide Step, Run, WritesInOrder, Ascending, NoneBelow, LaterWritesFrom;
      if Writes(db, es, site, 0) {
        AscendingFront(es[0].id, rest);
        LaterWriters(db, es, site, es[0].id);
      } else {
        assert [] + rest == rest;
      }
    }
  }

  lemma LaterWriters(db: Db, es: seq<Event>, site: SiteId, floor: RequestId)
    requires es != []
    ensures NoneBelow(NewApiWriters(Step(db, es[0]), es[1..], site), floor) <==> LaterWritesFrom(db, es, site, floor)
  {
    hide Step, Run, NewApiWriters;
    var db1, rest := Step(db, es[0]), es[1..];
    var later := NewApiWriters(db1, rest, site);
    if LaterWritesFrom(db, es, site, floor) {
      forall j | j in later ensures floor <= j {
        WriterIff(db1, rest, site, j);
        var k: nat :| Writes(db1, rest, site, k) && rest[k].id == j;
        WritesFromNext(db, es, site, k + 1);
      }
    }
    if NoneBelow(later, floor) {
      forall k: nat | k > 0 && Writes(db, es, site, k) ensures floor <= es[k].id {
        WritesFromNext(db, es, site, k);
        assert rest[k - 1].id == es[k].id;
        WriterIff(db1, rest, site, es[k].id);
      }
    }
  }

  /** Every write of the site was checked: after `at[k]` steps its request was the current one. */
  ghost predicate Checked(es: seq<Event>, site: SiteId, at: seq<nat>) {
    |at| == |es| && forall k: nat :: Writes(START, es, site, k) ==>
      at[k] <= k && StillCurrent(Run(START, es[..at[k]]), site, es[k].id, es[k].origin, NewApi)
  }

  /** A newer request writes the site between the check and the write of step `k`. */
  ghost predicate OvertakenInBetween(es: seq<Event>, site: SiteId, at: seq<nat>, k: nat)
    requires k < |at| && Writes(START, es, site, k)
  {
    exists m: nat :: at[k] <= m < k && Writes(START, es, site, m) && es[k].id < es[m].id
  }

  lemma WriteBeforeCheckIsOlder(es: seq<Event>, site: SiteId, at: seq<nat>, m: nat, k: nat)
    requires Checked(es, site, at) && k < |es| && m < at[k] && Writes(START, es, site, m) && Writes(START, es, site, k)
    ensures es[m].id <= es[k].id
  {
    var i, j := at[m], at[k];
    RunKeepsInv(START, es[..i]);
    RunOfConcat(START, es[..i], es[i..j]);
    assert es[..i] + es[i..j] == es[..j];
    LaterActiveIsNewer(Run(START, es[..i]), es[i..j], site, es[m].id, es[k].id);
  }

  lemma {:induction false} RunOfConcat(db: Db, a: seq<Event>, b: seq<Event>)
    ensures Run(db, a + b) == Run(Run(db, a), b)
    decreases |a|
  {
    hide Step;
    if a == [] {
      assert a + b == b;
    } else {
      RunOfConcat(Step(db, a[0]), a[1..], b);
      assert (a + b)[1..] == a[1..] + b && (a + b)[0] == a[0];
    }
  }

  /** Over any run whose NewAPI writes were all checked, however long before, a site's tokens are
      written in creation order, exactly if no newer request writes between a check and its write. */
  lemma NewApiOrderKeptIff(es: seq<Event>, site: SiteId, at: seq<nat>)
    requires Checked(es, site, at)
    ensures Ascending(NewApiWriters(START, es, site)) <==>
      forall k: nat :: k < |at| && Writes(START, es, site, k) ==> !OvertakenInBetween(es, site, at, k)
  {
    AscendingIffInOrder(START, es, site);
    hide Run, StillCurrent;
    if forall k: nat :: k < |at| && Writes(START, es, site, k) ==> !OvertakenInBetween(es, site, at, k) {
      forall m: nat, k: nat | m < k && Writes(START, es, site, m) && Writes(START, es, site, k)
        ensures es[m].id <= es[k].id
      {
        if m < at[k] { WriteBeforeCheckIsOlder(es, site, at, m, k); }
      }
    }
  }

  const NEWAPI_SITE := Site(NewApi, true, "o", true, Tokens("", "", ""), None, "", 0, "")

  lemma RunOfTwo(db: Db, a: Event, b: Event)
    ensures Run(db, [a, b]) == Step(Step(db, a), b)
  {
    hide Step;
    assert [a, b][1..] == [b] && [b][1..] == [];
    assert Run(Step(Step(db, a), b), []) == Step(Step(db, a), b);
  }

  /** A newer completion writes the site of request 0, each of its steps being guarded. */
  lemma NewerCompletionWrites(db: Db, newer: seq<Event>)
    requires 0 in db.sites && db.sites[0].(syncStatus := None, syncError := "") == NEWAPI_SITE && db.next == 1
    requires db.requests.Keys == {0} && db.requests[0].site == 0
    requires newer == [Create(0, NewApi, "o", 8, 2), Claim(1, 8, 3), NewApiWrite(1, 0, "o", Tokens("new", "", ""), 4)]
    ensures var late := Run(db, newer);
            Guarded(db, newer) && 0 in late.sites && late.sites[0].tokens == Tokens("new", "", "") && Superseded(late, 0)
  {
    var d3 := Step(db, newer[0]);
    var d4 := Step(d3, newer[1]);
    var d5 := Step(d4, newer[2]);
    assert newer[1..] == [newer[1], newer[2]] && newer[1..][1..] == [newer[2]] && newer[1..][1..][1..] == [];
    RunOfTwo(d3, newer[1], newer[2]);
    assert Run(db, newer) == d5;
    hide Run;
    assert Guarded(d5, []) && Guarded(d4, [newer[2]]) && Guarded(d3, [newer[1], newer[2]]);
    assert 1 in d5.requests && d5.requests[1].site == d5.requests[0].site;
  }

  /** Such a write does happen: the older completion passes its check, is overtaken by a newer one
      that writes, and then overwrites the newer session. */
  lemma NewApiWriteCanComeLate()
    ensures var start := Db(map[0 := NEWAPI_SITE], map[], 0);
            var checked := Run(start, [Create(0, NewApi, "o", 7, 0), Claim(0, 7, 1)]);
            var newer := [Create(0, NewApi, "o", 8, 2), Claim(1, 8, 3), NewApiWrite(1, 0, "o", Tokens("new", "", ""), 4)];
            var late := Run(checked, newer);
            && StillCurrent(checked, 0, 0, "o", NewApi)
            && Guarded(checked, newer)
            && 0 in late.sites && late.sites[0].tokens == Tokens("new", "", "")
            && Superseded(late, 0)
            && Step(late, NewApiWrite(0, 0, "o", Tokens("old", "", ""), 5)).sites[0].tokens == Tokens("old", "", "")
  {
    var start := Db(map[0 := NEWAPI_SITE], map[], 0);
    var newer := [Create(0, NewApi, "o", 8, 2), Claim(1, 8, 3), NewApiWrite(1, 0, "o", Tokens("new", "", ""), 4)];
    RunOfTwo(start, Create(0, NewApi, "o", 7, 0), Claim(0, 7, 1));
    var checked := Step(Step(start, Create(0, NewApi, "o", 7, 0)), Claim(0, 7, 1));
    hide Run, Guarded, Superseded;
    NewerCompletionWrites(checked, newer);
  }
}
