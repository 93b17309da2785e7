/** Where the session stored for a site comes from: a request that was created for that very target,
    claimed with its secret in time, and committed while the target was unchanged. */
module SessionOrigins {

  import opened Options
  import opened SessionSync

  // ---------------------------------------------------------------------------------------
  // What a step does to a request and to a site
  // ---------------------------------------------------------------------------------------

  /** A pending request becomes validating exactly when somebody claims it with its secret before it
      expires.  A wrong secret changes nothing; a claim that comes too late ends the request, and its
      site says so. */
  lemma PendingStep(db: Db, e: Event, id: RequestId)
    requires Inv(db) && id in db.requests && db.requests[id].status.Pending?
    ensures var r, after := db.requests[id], Step(db, e);
            && (id in after.requests && after.requests[id].status.Validating? <==>
                  e.Claim? && e.id == id && e.hash == r.secretHash && e.now < r.expiresAt)
            && (e.Claim? && e.id == id && e.now < r.expiresAt && e.hash != r.secretHash ==> after == db)
            && (e.Claim? && e.id == id && r.expiresAt <= e.now ==>
                  && id in after.requests
                  && after.requests[id] == r.(status := Expired, code := "SYNC_REQUEST_EXPIRED")
                  && after.sites[r.site]
                       == db.sites[r.site].(syncStatus := Some(Expired), syncError := "request expired"))
  {
  }

  /** A claimed request carries the time of its claim, and its site shows that it is being validated. */
  lemma ClaimShows(db: Db, id: RequestId, hash: int, now: Time)
    requires Inv(db) && id in db.requests && db.requests[id].status.Pending?
    requires hash == db.requests[id].secretHash && now < db.requests[id].expiresAt
    ensures var r, after := db.requests[id], Step(db, Claim(id, hash, now));
            && after.requests[id] == r.(status := Validating, consumedAt := Some(now))
            && after.sites[r.site] == db.sites[r.site].(syncStatus := Some(Validating), syncError := "")
  {
  }

  /** A new request ends every other open one of its site, which then shows that it waits. */
  lemma CreateShows(db: Db, e: Event)
    requires Inv(db) && e.Create? && e.site in db.sites
    ensures var after := Step(db, e);
            && after.sites == db.sites[e.site := db.sites[e.site].(syncStatus := Some(Pending), syncError := "")]
            && after.requests.Keys == db.requests.Keys + {db.next}
            && forall id :: id in db.requests ==>
                 var r := db.requests[id];
                 after.requests[id] == if r.site == e.site && (r.status.Pending? || r.status.Validating?)
                                       then r.(status := Expired, code := "REPLACED") else r
  {
  }

  /** What a request was created with. */
  predicate SameTerms(a: Request, b: Request) {
    a.site == b.site && a.platform == b.platform && a.origin == b.origin
    && a.secretHash == b.secretHash && a.expiresAt == b.expiresAt
  }

  /** The terms of a request never change, and a request that is new in the tables was created by this
      very step. */
  lemma StepKeepsTerms(db: Db, e: Event, id: RequestId)
    requires Inv(db) && id in Step(db, e).requests
    ensures id in db.requests ==> SameTerms(db.requests[id], Step(db, e).requests[id])
    ensures id !in db.requests ==>
      && e.Create? && id == db.next && e.site in db.sites
      && Step(db, e).requests[id] == Request(e.site, e.platform, e.origin, e.hash, Pending, "", e.now + 120, None)
  {
  }

  /** The end of a request shows at its site, if that is still the kind of site it was created for. */
  lemma FinishShows(db: Db, id: RequestId, status: Status, code: string, message: string, now: Time)
    requires Inv(db) && id in db.requests && db.requests[id].status.Active() && !status.Active()
    ensures var r, after := db.requests[id], Step(db, Finish(id, status, code, message, now));
            && after.requests == db.requests[id := r.(status := status, code := code)]
            && after.sites == if !r.platform.OtherPlatform? && db.sites[r.site].platform == r.platform
                                 && db.sites[r.site].browserMode
                              then db.sites[r.site := db.sites[r.site].(
                                     syncStatus := Some(status), syncError := message,
                                     syncedAt := if status.Ready? then now else db.sites[r.site].syncedAt)]
                              else db.sites
  {
    var r := db.requests[id];
    assert !OtherActive(db.requests[id := r.(status := status, code := code)], id, r);
  }

  /** The site is still what the request was created for. */
  predicate TargetUnchanged(db: Db, r: Request) {
    && r.origin != "" && r.site in db.sites
    && db.sites[r.site].platform == r.platform && db.sites[r.site].browserMode && db.sites[r.site].origin == r.origin
  }

  /** A failed validation marks the site, and leaves its session alone. */
  lemma RejectShows(db: Db, id: RequestId, message: string)
    requires id in db.requests && db.requests[id].status.Validating? && db.requests[id].platform.Sub2Api?
    ensures var r := db.requests[id];
            var s, after := r.site, Step(db, Reject(r.site, id, r.origin, message));
            after == if TargetUnchanged(db, r)
                     then db.(sites := db.sites[s := db.sites[s].(
                            syncStatus := Some(Expired), syncError := message, failureKind := "auth_expired")])
                     else db
  {
  }

  /** A blocked validation is noted at the site, whatever has become of the request. */
  lemma BlockShows(db: Db, e: Event)
    requires e.WafMark?
    ensures var after := Step(db, e);
            && after.requests == db.requests && after.next == db.next && after.sites.Keys == db.sites.Keys
            && (forall s :: s in db.sites && s != e.site ==> after.sites[s] == db.sites[s])
            && (e.site in db.sites ==> after.sites[e.site] == db.sites[e.site].(failureKind := "waf"))
  {
  }

  /** A user edit or a deletion takes place at once, whoever is at work on the site: an edit leaves the
      requests alone, a deletion takes those of the site along. */
  lemma UserActsAtOnce(db: Db, e: Event)
    requires e.Edit? || e.Delete?
    ensures var after := Step(db, e);
            && after.next == db.next
            && (forall s :: s != e.site ==> (s in after.sites <==> s in db.sites))
            && (forall s :: s in db.sites && s != e.site ==> after.sites[s] == db.sites[s])
            && (e.Edit? ==> e.site in after.sites && after.sites[e.site] == e.row && after.requests == db.requests)
            && (e.Delete? ==> e.site !in after.sites)
            && (e.Delete? ==> forall id :: id in after.requests <==> id in db.requests && db.requests[id].site != e.site)
            && (forall id :: id in after.requests ==> id in db.requests && after.requests[id] == db.requests[id])
  {
  }

  /** Everything about a site but how its synchronization stands. */
  function Settings(s: Site): Site {
    s.(syncStatus := None, syncError := "", syncedAt := 0, failureKind := "")
  }

  /** Only a stored session, a user edit or a deletion changes the tokens or the target of a site. */
  lemma SettingsChangeIf(db: Db, e: Event, site: SiteId)
    requires site in db.sites
    requires site !in Step(db, e).sites || Settings(Step(db, e).sites[site]) != Settings(db.sites[site])
    ensures (e.Commit? || e.NewApiWrite? || e.Edit? || e.Delete?) && e.site == site
  {
  }

  // ---------------------------------------------------------------------------------------
  // Runs
  // ---------------------------------------------------------------------------------------

  lemma {:induction false} RunLast(db: Db, es: seq<Event>, k: nat)
    requires k < |es|
    ensures Run(db, es[..k + 1]) == Step(Run(db, es[..k]), es[k])
  {
    assert es[..k + 1] == es[..k] + [es[k]];
    RunOfConcat(db, es[..k], [es[k]]);
    assert [es[k]][1..] == [];
    assert Run(Step(Run(db, es[..k]), es[k]), []) == Step(Run(db, es[..k]), es[k]);
  }

  /** Step `c` created the request. */
  predicate CreatedBy(es: seq<Event>, id: RequestId, c: nat) {
    c < |es| && es[c].Create? && Run(START, es[..c]).next == id && es[c].site in Run(START, es[..c]).sites
  }

  /** The request has the terms step `c` gave it; it may be claimed for two minutes. */
  predicate TermsOf(r: Request, e: Event) {
    e.Create? && r.site == e.site && r.platform == e.platform && r.origin == e.origin
    && r.secretHash == e.hash && r.expiresAt == e.now + 120
  }

  lemma {:induction false} RequestWasCreated(es: seq<Event>, k: nat, id: RequestId) returns (c: nat)
    requires k <= |es| && id in Run(START, es[..k]).requests
    ensures c < k && CreatedBy(es, id, c) && TermsOf(Run(START, es[..k]).requests[id], es[c])
    decreases k
  {
    c := 0;
    assert es[..0] == [];
    if k > 0 {
      RunLast(START, es, k - 1);
      RunKeepsInv(START, es[..k - 1]);
      hide Step, Run;
      var db := Run(START, es[..k - 1]);
      StepKeepsTerms(db, es[k - 1], id);
      if id in db.requests {
        c := RequestWasCreated(es, k - 1, id);
      } else {
        c := k - 1;
      }
    }
  }

  /** Step `j` claimed the request that step `c` had created: with its secret, in time. */
  predicate ClaimedBy(es: seq<Event>, id: RequestId, c: nat, j: nat) {
    && c < j < |es| && es[c].Create?
    && es[j].Claim? && es[j].id == id && es[j].hash == es[c].hash && es[j].now < es[c].now + 120
  }

  lemma EndedStaysEnded(db: Db, e: Event, id: RequestId)
    requires Inv(db) && id in db.requests && !db.requests[id].status.Active() && id in Step(db, e).requests
    ensures !Step(db, e).requests[id].status.Active()
  {
  }

  lemma {:induction false} ValidatingWasClaimed(es: seq<Event>, k: nat, id: RequestId) returns (c: nat, j: nat)
    requires k <= |es| && id in Run(START, es[..k]).requests && Run(START, es[..k]).requests[id].status.Validating?
    ensures j < k && CreatedBy(es, id, c) && ClaimedBy(es, id, c, j)
    ensures TermsOf(Run(START, es[..k]).requests[id], es[c])
    decreases k
  {
    c, j := 0, 0;
    assert es[..0] == [];
    if k > 0 {
      RunLast(START, es, k - 1);
      RunKeepsInv(START, es[..k - 1]);
      hide Step, Run, Inv;
      var db := Run(START, es[..k - 1]);
      StepKeepsTerms(db, es[k - 1], id);
      if id in db.requests {
        if db.requests[id].status.Validating? {
          c, j := ValidatingWasClaimed(es, k - 1, id);
        } else if db.requests[id].status.Pending? {
          c := RequestWasCreated(es, k - 1, id);
          PendingStep(db, es[k - 1], id);
          j := k - 1;
        } else {
          EndedStaysEnded(db, es[k - 1], id);
        }
      }
    }
  }

  /** A site whose session has just been stored. */
  function Stored(s: Site, tokens: Tokens, now: Time): Site {
    Site(s.platform, true, s.origin, true, tokens, Some(Ready), "", now, s.failureKind)
  }

  /** A NewAPI completion stores its session in the same way, whenever it comes to write. */
  lemma NewApiWriteShows(db: Db, e: Event)
    requires e.NewApiWrite?
    ensures Step(db, e) == if e.site in db.sites
                           then db.(sites := db.sites[e.site := Stored(db.sites[e.site], e.tokens, e.now)]) else db
  {
  }

  /** Step `k` stored a session on behalf of the request: the site was still, when it was stored, what
      step `c` had created the request for. */
  predicate StoredBy(es: seq<Event>, site: SiteId, id: RequestId, c: nat, k: nat) {
    && c < k < |es| && es[c].Create? && es[c].site == site && es[c].platform.Sub2Api? && es[c].origin != ""
    && es[k].Commit? && es[k].site == site && es[k].id == id
    && var before, after := Run(START, es[..k]), Run(START, es[..k + 1]);
       && site in before.sites && site in after.sites
       && before.sites[site].platform.Sub2Api? && before.sites[site].browserMode
       && before.sites[site].origin == es[c].origin
       && after.sites[site] == Stored(before.sites[site], es[k].tokens, es[k].now)
  }

  lemma {:induction false} WriterIsCommit(db: Db, es: seq<Event>, site: SiteId, id: RequestId) returns (k: nat)
    requires id in Writers(db, es, site)
    ensures k < |es| && es[k].Commit? && es[k].site == site && es[k].id == id
    ensures StillCurrent(Run(db, es[..k]), site, id, es[k].origin, Sub2Api)
    decreases |es|
  {
    hide StillCurrent, Step;
    if es[0].Commit? && es[0].site == site && StillCurrent(db, site, es[0].id, es[0].origin, Sub2Api) && es[0].id == id {
      k := 0;
      assert es[..0] == [];
    } else {
      var j := WriterIsCommit(Step(db, es[0]), es[1..], site, id);
      k := j + 1;
      assert es[..k][1..] == es[1..][..j];
    }
  }

  lemma CommitStores(es: seq<Event>, site: SiteId, id: RequestId, c: nat, k: nat)
    requires c < k < |es| && es[k].Commit? && es[k].site == site && es[k].id == id
    requires StillCurrent(Run(START, es[..k]), site, id, es[k].origin, Sub2Api)
    requires TermsOf(Run(START, es[..k]).requests[id], es[c])
    ensures StoredBy(es, site, id, c, k)
  {
    RunLast(START, es, k);
    hide Run;
  }

  /** Over any interleaving, a session is stored for a site only on behalf of a request that was created
      for the site as it still is, and that somebody who knew its secret claimed within two minutes. */
  lemma StoredSessionWasClaimed(es: seq<Event>, site: SiteId, id: RequestId) returns (c: nat, j: nat, k: nat)
    requires id in Writers(START, es, site)
    ensures j < k && CreatedBy(es, id, c) && ClaimedBy(es, id, c, j) && StoredBy(es, site, id, c, k)
  {
    k := WriterIsCommit(START, es, site, id);
    c, j := ValidatingWasClaimed(es, k, id);
    CommitStores(es, site, id, c, k);
  }

  /** A session was stored at step `k` exactly if it appears among the writes: nothing else, but user
      edits, deletions and the NewAPI completions, ever changes a site's tokens. */
  lemma TokensChangeIf(es: seq<Event>, site: SiteId, k: nat)
    requires k < |es| && site in Run(START, es[..k]).sites && site in Run(START, es[..k + 1]).sites
    requires Run(START, es[..k]).sites[site].tokens != Run(START, es[..k + 1]).sites[site].tokens
    ensures (es[k].Edit? || es[k].NewApiWrite? || es[k].Commit?) && es[k].site == site
    ensures es[k].Commit? ==> es[k].id in Writers(START, es, site)
  {
    RunLast(START, es, k);
    SettingsChangeIf(Run(START, es[..k]), es[k], site);
    if es[k].Commit? {
      CommitIsWriter(START, es, site, k);
    }
  }

  lemma {:induction false} CommitIsWriter(db: Db, es: seq<Event>, site: SiteId, k: nat)
    requires k < |es| && es[k].Commit? && es[k].site == site
    requires StillCurrent(Run(db, es[..k]), site, es[k].id, es[k].origin, Sub2Api)
    ensures es[k].id in Writers(db, es, site)
    decreases |es|
  {
    hide StillCurrent, Step;
    if k == 0 {
      assert es[..0] == [];
    } else {
      assert es[..k][1..] == es[1..][..k - 1];
      CommitIsWriter(Step(db, es[0]), es[1..], site, k - 1);
    }
  }
}
