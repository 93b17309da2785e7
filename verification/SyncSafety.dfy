/** Main-site syncs over whole runs: by any main sites, in any order, with any scope. */
module SyncSafety {
  import opened Options
  import opened Urls
  import opened Candidates
  import opened SiteTables
  import opened SyncTheorems

  // ---------------------------------------------------------------------------------------
  // One complete snapshot, all channels
  // ---------------------------------------------------------------------------------------

  ghost predicate ChannelLinked(links: map<LinkKey, LinkRow>, admin: nat, channel: nat) {
    exists k :: k in links && k.admin == admin && k.channel == channel
  }

  /** The channel has an older link, still its own, at a site the candidate does not go to. */
  ghost predicate OlderLink(rules: UrlRules, t: Tables, admin: nat, p: Plan, c: Candidate, channel: nat) {
    exists k :: Current(t.links, admin, p.live, k) && k.channel == channel && !IsFit(rules, t.sites, c.baseUrl, k.site)
  }

  lemma {:induction false} OldestLink(links: map<LinkKey, LinkRow>, rows: set<LinkKey>, first: LinkKey)
    returns (k: LinkKey)
    requires first in rows && forall j :: j in rows ==> j in links
    ensures k in rows && forall j :: j in rows ==> links[k].id <= links[j].id
    decreases |rows|
  {
    k := first;
    if next :| next in rows - {first} {
      var other := OldestLink(links, rows - {first}, next);
      k := if links[first].id <= links[other].id then first else other;
      assert forall j :: j in rows ==> j == first || j in rows - {first};
    } else {
      assert forall j :: j in rows && j != first ==> j in rows - {first};
    }
  }

  /** If the link the import wrote is not the channel's own, an older one that is takes its place. */
  lemma ReplacedByOldest(links: map<LinkKey, LinkRow>, admin: nat, live: map<nat, string>, preferred: map<nat, nat>,
                         k: LinkKey)
    returns (kept: LinkKey)
    requires Current(links, admin, live, k)
    ensures Canonical(links, admin, live, preferred, kept) && kept.channel == k.channel
  {
    if PreferenceDecides(links, admin, live, preferred, k.channel) {
      kept := LinkKey(preferred[k.channel], admin, k.channel);
    } else {
      var rows := set j | j in links && Current(links, admin, live, j) && j.channel == k.channel;
      kept := OldestLink(links, rows, k);
      forall j | Current(links, admin, live, j) && j.channel == k.channel ensures links[kept].id <= links[j].id {
        assert j in rows;
      }
    }
  }

  lemma OldSitesKept(rules: UrlRules, t: Tables, admin: nat, p: Plan)
    requires Consistent(t) && PlanOk(rules, p)
    ensures var t1 := AfterImport(rules, t, admin, p);
            forall id :: id in t.sites ==> id in t1.sites && t1.sites[id] == t.sites[id]
  {
    PlanCandidatesOk(rules, p);
    ImportAllConsistent(rules, t, admin, p.chosen);
  }

  lemma PlanFitLasts(rules: UrlRules, t: Tables, admin: nat, p: Plan, i: nat, id: nat)
    requires Consistent(t) && PlanOk(rules, p) && i < |p.chosen| && IsFit(rules, t.sites, p.chosen[i].baseUrl, id)
    ensures IsFit(rules, AfterImport(rules, t, admin, p).sites, p.chosen[i].baseUrl, id)
  {
    PlanCandidatesOk(rules, p);
    hide ImportedAll;
    FitLasts(rules, t, admin, p.chosen, p.chosen[i], id);
  }

  /** The site a candidate ends up at is the best fit among the old sites, or a new one. */
  lemma EndsAtFit(rules: UrlRules, t: Tables, admin: nat, p: Plan, i: nat, site: nat, k: LinkKey)
    requires Consistent(t) && PlanOk(rules, p) && i < |p.chosen| && k in t.links
    requires IsFit(rules, AfterImport(rules, t, admin, p).sites, p.chosen[i].baseUrl, site)
    ensures k.site == site <==> IsFit(rules, t.sites, p.chosen[i].baseUrl, k.site)
  {
    OldSitesKept(rules, t, admin, p);
    hide ImportedAll, PlanOk;
    var t1 := AfterImport(rules, t, admin, p);
    if IsFit(rules, t.sites, p.chosen[i].baseUrl, k.site) {
      PlanFitLasts(rules, t, admin, p, i, k.site);
      FitUnique(rules, t1.sites, p.chosen[i].baseUrl, site);
      FitUnique(rules, t1.sites, p.chosen[i].baseUrl, k.site);
    }
    if k.site == site {
      FitAmongFewer(rules, t.sites, t1.sites, p.chosen[i].baseUrl, site);
    }
  }

  /** What the import leaves of a channel's links: the one it wrote, and the old ones elsewhere. */
  lemma ChannelAfterImport(rules: UrlRules, t: Tables, admin: nat, p: Plan, i: nat, m: nat, site: nat, k: LinkKey)
    requires Consistent(t) && PlanOk(rules, p) && i < |p.chosen| && m < |p.chosen[i].ids|
    requires PrefersAll(Preferred(rules, t, admin, p.chosen), p.chosen[i], site)
    requires k.admin == admin && k.channel == p.chosen[i].ids[m] && k.site != site
    ensures var t1 := AfterImport(rules, t, admin, p);
            (k in t1.links <==> k in t.links) && (k in t.links ==> t1.links[k] == t.links[k])
  {
    PlanCandidatesOk(rules, p);
    ImportAllConsistent(rules, t, admin, p.chosen);
    if k in AfterImport(rules, t, admin, p).links {
      ImportAllFrame(rules, t, admin, p.chosen, k);
    }
  }

  /** A channel of an imported candidate is linked after the run, exactly if the link written for it
      stays, or an older link of its own stays elsewhere. */
  lemma ImportedChannelLinkedIff(rules: UrlRules, t: Tables, admin: nat, p: Plan, delete: bool, i: nat, m: nat)
    requires Consistent(t) && PlanOk(rules, p) && p.mismatched == {} && i < |p.chosen| && m < |p.chosen[i].ids|
    ensures var c := p.chosen[i];
            ChannelLinked(Synced(rules, t, admin, p, delete).links, admin, c.ids[m]) <==>
              LinkIsOwn(c, m) || OlderLink(rules, t, admin, p, c, c.ids[m])
  {
    var c := p.chosen[i];
    var site := ImportAllAttaches(rules, t, admin, p.chosen, i);
    hide ImportedAll, Preferred, IsFit;
    var t1, t2, preferred :=
      AfterImport(rules, t, admin, p), AfterCleanup(rules, t, admin, p), Preferred(rules, t, admin, p.chosen);
    assert Synced(rules, t, admin, p, delete).links == t2.links;
    CleanupKeepsIff(t1, admin, p, preferred, c, m, site);
    if ChannelLinked(t2.links, admin, c.ids[m]) && !LinkIsOwn(c, m) {
      var k :| k in t2.links && k.admin == admin && k.channel == c.ids[m];
      assert Canonical(t1.links, admin, p.live, preferred, k);
      ChannelAfterImport(rules, t, admin, p, i, m, site, k);
      EndsAtFit(rules, t, admin, p, i, site, k);
      assert Current(t.links, admin, p.live, k);
    }
    if OlderLink(rules, t, admin, p, c, c.ids[m]) {
      var k :| Current(t.links, admin, p.live, k) && k.channel == c.ids[m] && !IsFit(rules, t.sites, c.baseUrl, k.site);
      EndsAtFit(rules, t, admin, p, i, site, k);
      ChannelAfterImport(rules, t, admin, p, i, m, site, k);
      assert Current(t1.links, admin, p.live, k);
      var kept := ReplacedByOldest(t1.links, admin, p.live, preferred, k);
      assert kept in t2.links;
    }
  }

  /** After a sync of all channels this main site has at most one link for every usable channel, at the
      channel's own URL, and none for any other channel; and it has one exactly if the link written
      for the channel is recognized, or an older one of its own stays elsewhere. */
  lemma EveryChannelLinkedIff(rules: UrlRules, t: Tables, admin: nat, channels: seq<Channel>, syncable: string -> bool,
                              delete: bool, n: nat)
    returns (i: nat, m: nat)
    requires Consistent(t) && NormalizedList(channels) && n < |channels| && rules.Usable(channels[n])
    ensures var p := MakePlan(rules, channels, AllChannels, syncable);
            var links := Synced(rules, t, admin, p, delete).links;
            && i < |p.chosen| && Carries(rules, p.chosen[i], m, channels[n])
            && (ChannelLinked(links, admin, channels[n].id) <==>
                  LinkIsOwn(p.chosen[i], m) || OlderLink(rules, t, admin, p, p.chosen[i], channels[n].id))
            && OneLinkPerChannel(links, admin)
            && (forall k :: k in links && k.admin == admin ==>
                  && k.channel in p.live
                  && (p.live[k.channel] != "" ==> Normalize(links[k].url) == p.live[k.channel]))
            && p.live == LiveUrls(Aggregate(rules, channels))
  {
    i, m := PlanCarries(rules, channels, syncable, n);
    var p := MakePlan(rules, channels, AllChannels, syncable);
    hide ImportedAll, Preferred, PlanOk, MakePlan, OlderLink, ChannelLinked, OneLinkPerChannel;
    SyncCleansUp(rules, t, admin, p, delete);
    assert AllCurrent(Synced(rules, t, admin, p, delete).links, admin, p.live);
    ImportedChannelLinkedIff(rules, t, admin, p, delete, i, m);
  }

  lemma PlanCarries(rules: UrlRules, channels: seq<Channel>, syncable: string -> bool, n: nat) returns (i: nat, m: nat)
    requires NormalizedList(channels) && n < |channels| && rules.Usable(channels[n])
    ensures var p := MakePlan(rules, channels, AllChannels, syncable);
            && PlanOk(rules, p) && p.mismatched == {} && p.live == LiveUrls(Aggregate(rules, channels))
            && i < |p.chosen| && Carries(rules, p.chosen[i], m, channels[n])
  {
    hide PlanOk, Aggregate, LiveUrls, WellFormed, Choose, NormalizedList, Carries;
    var p := MakePlan(rules, channels, AllChannels, syncable);
    MakePlanOk(rules, channels, AllChannels, syncable);
    AggregatePartitions(rules, channels);
    ChooseAll(syncable, p.candidates);
    i, m := WhereHeld(rules, p.candidates, channels, n);
  }

  lemma WhereHeld(rules: UrlRules, cs: seq<Candidate>, channels: seq<Channel>, n: nat) returns (i: nat, m: nat)
    requires GroupsOf(rules, cs, channels) && n < |channels| && rules.Usable(channels[n])
    ensures i < |cs| && Carries(rules, cs[i], m, channels[n])
  {
    assert Held(rules, cs, channels[n]);
    i, m :| 0 <= i < |cs| && Carries(rules, cs[i], m, channels[n]);
  }

  lemma {:induction false} ChooseAll(syncable: string -> bool, cs: seq<Candidate>)
    ensures Choose(AllChannels, syncable, cs) == cs
    decreases |cs|
  {
    if cs != [] {
      ChooseAll(syncable, cs[..|cs| - 1]);
    }
  }

  // ---------------------------------------------------------------------------------------
  // One step
  // ---------------------------------------------------------------------------------------

  ghost predicate Reenabled(a: SiteRow, b: SiteRow) {
    a.autoDisabled && b == a.(enabled := true, autoDisabled := false)
  }

  ghost predicate AutoDisabledNow(a: SiteRow, b: SiteRow) {
    a.enabled && b == a.(enabled := false, autoDisabled := true)
  }

  lemma ImportKeepsSites(rules: UrlRules, t: Tables, admin: nat, p: Plan, id: nat)
    requires Consistent(t) && PlanOk(rules, p) && id in t.sites
    ensures id in AfterImport(rules, t, admin, p).sites && AfterImport(rules, t, admin, p).sites[id] == t.sites[id]
  {
    PlanCandidatesOk(rules, p);
    ImportAllConsistent(rules, t, admin, p.chosen);
  }

  lemma StagesOnSite(t: Tables, affected: set<nat>, delete: bool, admin: nat, urls: set<string>, id: nat)
    requires Consistent(t) && id in t.sites
    ensures var t' := Matched(Reconciled(t, affected, delete), admin, urls);
            && (id in t'.sites ==>
                  || t'.sites[id] == t.sites[id]
                  || (Reenabled(t.sites[id], t'.sites[id]) && HasLink(t'.links, id))
                  || (AutoDisabledNow(t.sites[id], t'.sites[id]) && !HasLink(t'.links, id)))
  {
    var t3 := Reconciled(t, affected, delete);
    var dropped := MismatchLinks(t3.links, admin, urls);
    if HasLink(t.links, id) && id in t3.sites && !HasLink(t.links - dropped, id) {
      var k :| k in t.links && k.site == id;
      assert k in dropped;
      assert id in MismatchSites(t3, admin, urls);
    }
    if HasLink(t.links - dropped, id) {
      var k :| k in t.links - dropped && k.site == id;
      assert k in t.links;
    }
  }

  /** Whatever one sync does to an existing site: nothing; re-enable it if it was auto-disabled
      and is linked;
      auto-disable it if it was enabled and no link of any main site remains; or delete it, which
      takes no link of another main site and leaves no link behind. */
  lemma SyncOnSite(rules: UrlRules, t: Tables, admin: nat, p: Plan, delete: bool, id: nat)
    requires Consistent(t) && PlanOk(rules, p) && id in t.sites
    ensures var t' := Synced(rules, t, admin, p, delete);
            && Consistent(t')
            && (id in t'.sites ==>
                  || t'.sites[id] == t.sites[id]
                  || (Reenabled(t.sites[id], t'.sites[id]) && HasLink(t'.links, id))
                  || (AutoDisabledNow(t.sites[id], t'.sites[id]) && !HasLink(t'.links, id)))
            && (id !in t'.sites ==> !HasLink(t'.links, id) && forall k :: k in t.links && k.site == id ==> k.admin == admin)
  {
    SyncConsistent(rules, t, admin, p, delete);
    SyncLeavesOthers(rules, t, admin, p, delete);
    ImportKeepsSites(rules, t, admin, p, id);
    hide ImportedAll, Preferred;
    StagesOnSite(AfterCleanup(rules, t, admin, p), Affected(rules, t, admin, p), delete, admin, p.mismatched, id);
  }

  // ---------------------------------------------------------------------------------------
  // Sites that this main site does not link to
  // ---------------------------------------------------------------------------------------

  /** Candidate `i` of the plan would be imported into this existing site. */
  ghost predicate GoesTo(rules: UrlRules, t: Tables, p: Plan, i: int, id: nat) {
    0 <= i < |p.chosen| && IsFit(rules, t.sites, p.chosen[i].baseUrl, id)
  }

  /** The stored link of position `m` is recognized as the channel's own. */
  predicate LinkIsOwn(c: Candidate, m: nat) {
    LiveUrl(c, m) != "" ==> Normalize(LinkUrl(c, m)) == LiveUrl(c, m)
  }

  ghost predicate Imports(rules: UrlRules, t: Tables, p: Plan, id: nat) {
    exists i :: GoesTo(rules, t, p, i, id)
  }

  /** Some imported link is recognized as its channel's own: the reconcile keeps it. */
  ghost predicate KeepsLink(rules: UrlRules, t: Tables, p: Plan, id: nat) {
    exists i, m :: GoesTo(rules, t, p, i, id) && 0 <= m < |p.chosen[i].ids| && LinkIsOwn(p.chosen[i], m)
  }

  /** Some imported link stays until the end of the run. */
  ghost predicate StaysLinked(rules: UrlRules, t: Tables, p: Plan, id: nat) {
    exists i, m :: GoesTo(rules, t, p, i, id) && 0 <= m < |p.chosen[i].ids| && LinkStays(p, p.chosen[i], m)
  }

  ghost predicate LinkedByOther(links: map<LinkKey, LinkRow>, admin: nat, id: nat) {
    exists k :: k in links && k.site == id && k.admin != admin
  }

  ghost predicate LinkedBy(links: map<LinkKey, LinkRow>, admin: nat, id: nat) {
    exists k :: k in links && k.site == id && k.admin == admin
  }

  /** The best fit among the old sites stays the best fit during the import. */
  lemma {:induction false} FitLasts(rules: UrlRules, t: Tables, admin: nat, cs: seq<Candidate>, c: Candidate, id: nat)
    requires WellFormed(rules, cs) && CandidateOk(rules, c)
    requires forall j :: 0 <= j < |cs| && cs[j].key == c.key ==> cs[j] == c
    requires Consistent(t) && IsFit(rules, t.sites, c.baseUrl, id)
    ensures IsFit(rules, ImportedAll(rules, t, admin, cs).sites, c.baseUrl, id)
    decreases |cs|
  {
    if cs != [] {
      var prior, last := cs[..|cs| - 1], cs[|cs| - 1];
      PreferredPrefix(rules, cs);
      FitLasts(rules, t, admin, prior, c, id);
      assert CandidateOk(rules, last);
      assert forall j :: 0 <= j < |prior| ==> CandidateOk(rules, prior[j]);
      ImportAllConsistent(rules, t, admin, prior);
      FitLastsOne(rules, ImportedAll(rules, t, admin, prior), admin, last, c, id);
    }
  }

  lemma FitLastsOne(rules: UrlRules, t: Tables, admin: nat, last: Candidate, c: Candidate, id: nat)
    requires Consistent(t) && CandidateOk(rules, last) && CandidateOk(rules, c) && (last.key == c.key ==> last == c)
    requires IsFit(rules, t.sites, c.baseUrl, id)
    ensures IsFit(rules, Imported(rules, t, admin, last).sites, c.baseUrl, id)
  {
    var sites' := Imported(rules, t, admin, last).sites;
    if last.key == c.key {
      FitUnique(rules, t.sites, c.baseUrl, id);
    } else if Fit(rules, t.sites, last.baseUrl).None? {
      assert Rank(rules, NewSite(last), c.baseUrl) == 3;
      forall j | j in sites' ensures Precedes(rules, sites', c.baseUrl, id, j) {
        if j in t.sites { assert Precedes(rules, t.sites, c.baseUrl, id, j); }
      }
    }
  }

  /** The links of a candidate that goes to an old site are written there. */
  lemma GoesThere(rules: UrlRules, t: Tables, admin: nat, p: Plan, i: nat, id: nat)
    requires Consistent(t) && PlanOk(rules, p) && GoesTo(rules, t, p, i, id)
    ensures AttachedTo(rules, AfterImport(rules, t, admin, p), admin, p.chosen[i], id)
    ensures PrefersAll(Preferred(rules, t, admin, p.chosen), p.chosen[i], id)
  {
    PlanCandidatesOk(rules, p);
    FitLasts(rules, t, admin, p.chosen, p.chosen[i], id);
    var site := ImportAllAttaches(rules, t, admin, p.chosen, i);
    hide ImportedAll, Preferred;
    FitUnique(rules, AfterImport(rules, t, admin, p).sites, p.chosen[i].baseUrl, site);
    FitUnique(rules, AfterImport(rules, t, admin, p).sites, p.chosen[i].baseUrl, id);
  }

  /** A fit among more sites is a fit among fewer. */
  lemma FitAmongFewer(rules: UrlRules, sites: map<nat, SiteRow>, more: map<nat, SiteRow>, base: string, id: nat)
    requires IsFit(rules, more, base, id) && id in sites
    requires forall j :: j in sites ==> j in more && more[j] == sites[j]
    ensures IsFit(rules, sites, base, id)
  {
    forall j | j in sites ensures Precedes(rules, sites, base, id, j) {
      assert Precedes(rules, more, base, id, j);
    }
  }

  /** Every link of this main site that the import brings to an unlinked old site belongs to a
      candidate that goes there. */
  lemma BroughtByCandidate(rules: UrlRules, t: Tables, admin: nat, p: Plan, k: LinkKey) returns (i: nat, m: nat)
    requires Consistent(t) && PlanOk(rules, p)
    requires k in AfterImport(rules, t, admin, p).links && k.admin == admin
    requires k.site in t.sites && !LinkedBy(t.links, admin, k.site)
    ensures GoesTo(rules, t, p, i, k.site) && m < |p.chosen[i].ids| && p.chosen[i].ids[m] == k.channel
  {
    ImportAllFrame(rules, t, admin, p.chosen, k);
    PreferredKeys(rules, t, admin, p.chosen, k.channel);
    i :| 0 <= i < |p.chosen| && k.channel in p.chosen[i].ids;
    m :| 0 <= m < |p.chosen[i].ids| && p.chosen[i].ids[m] == k.channel;
    var site := ImportAllAttaches(rules, t, admin, p.chosen, i);
    PlanCandidatesOk(rules, p);
    ImportAllConsistent(rules, t, admin, p.chosen);
    hide ImportedAll, Preferred;
    FitAmongFewer(rules, t.sites, AfterImport(rules, t, admin, p).sites, p.chosen[i].baseUrl, k.site);
  }

  lemma ImportsIff(rules: UrlRules, t: Tables, admin: nat, p: Plan, id: nat)
    requires Consistent(t) && PlanOk(rules, p) && id in t.sites && !LinkedBy(t.links, admin, id)
    ensures LinkedBy(AfterImport(rules, t, admin, p).links, admin, id) <==> Imports(rules, t, p, id)
  {
    var t1 := AfterImport(rules, t, admin, p);
    if LinkedBy(t1.links, admin, id) {
      var k :| k in t1.links && k.site == id && k.admin == admin;
      var i, m := BroughtByCandidate(rules, t, admin, p, k);
    }
    if Imports(rules, t, p, id) {
      var i :| GoesTo(rules, t, p, i, id);
      GoesThere(rules, t, admin, p, i, id);
      PlanCandidatesOk(rules, p);
      var c := p.chosen[i];
      assert CandidateOk(rules, c);
      hide ImportedAll;
      assert LinkIs(t1.links, LinkKey(id, admin, c.ids[0]), LinkUrl(c, 0), LinkName(c, 0));
    }
  }

  /** What the reconcile does to the link of position `m`. */
  lemma CleanupKeepsIff(t: Tables, admin: nat, p: Plan, preferred: map<nat, nat>, c: Candidate, m: nat, id: nat)
    requires m < |c.ids| && c.ids[m] in preferred && preferred[c.ids[m]] == id
    requires c.ids[m] in p.live && p.live[c.ids[m]] == LiveUrl(c, m)
    requires LinkIs(t.links, LinkKey(id, admin, c.ids[m]), LinkUrl(c, m), LinkName(c, m))
    ensures LinkKey(id, admin, c.ids[m]) in Cleaned(t, admin, p, preferred).links <==> LinkIsOwn(c, m)
  {
    var k := LinkKey(id, admin, c.ids[m]);
    if LinkIsOwn(c, m) {
      assert Current(t.links, admin, p.live, k);
      assert Canonical(t.links, admin, p.live, preferred, k);
    } else {
      assert Stale(p.live, k, t.links[k]);
    }
  }

  lemma LinkOfCandidate(rules: UrlRules, t: Tables, admin: nat, p: Plan, i: nat, m: nat, id: nat)
    requires Consistent(t) && PlanOk(rules, p) && GoesTo(rules, t, p, i, id) && m < |p.chosen[i].ids|
    ensures var c := p.chosen[i];
            var k := LinkKey(id, admin, c.ids[m]);
            && LinkIs(AfterImport(rules, t, admin, p).links, k, LinkUrl(c, m), LinkName(c, m))
            && (k in AfterCleanup(rules, t, admin, p).links <==> LinkIsOwn(c, m))
  {
    GoesThere(rules, t, admin, p, i, id);
    hide ImportedAll, Preferred;
    CleanupKeepsIff(AfterImport(rules, t, admin, p), admin, p, Preferred(rules, t, admin, p.chosen), p.chosen[i], m, id);
  }

  lemma KeepsLinkIff(rules: UrlRules, t: Tables, admin: nat, p: Plan, id: nat)
    requires Consistent(t) && PlanOk(rules, p) && id in t.sites && !LinkedBy(t.links, admin, id)
    ensures LinkedBy(AfterCleanup(rules, t, admin, p).links, admin, id) <==> KeepsLink(rules, t, p, id)
  {
    var t2 := AfterCleanup(rules, t, admin, p);
    if LinkedBy(t2.links, admin, id) {
      var k :| k in t2.links && k.site == id && k.admin == admin;
      var i, m := BroughtByCandidate(rules, t, admin, p, k);
      LinkOfCandidate(rules, t, admin, p, i, m, id);
    }
    if KeepsLink(rules, t, p, id) {
      var i, m :| GoesTo(rules, t, p, i, id) && 0 <= m < |p.chosen[i].ids| && LinkIsOwn(p.chosen[i], m);
      LinkOfCandidate(rules, t, admin, p, i, m, id);
    }
  }

  /** A site that was not linked is linked afterwards exactly if some link written for it stays. */
  lemma StaysLinkedIff(rules: UrlRules, t: Tables, admin: nat, p: Plan, delete: bool, id: nat)
    requires Consistent(t) && PlanOk(rules, p) && id in t.sites && !LinkedBy(t.links, admin, id)
    ensures LinkedBy(Synced(rules, t, admin, p, delete).links, admin, id) <==> StaysLinked(rules, t, p, id)
  {
    var t' := Synced(rules, t, admin, p, delete);
    if LinkedBy(t'.links, admin, id) {
      var k :| k in t'.links && k.site == id && k.admin == admin;
      var i, m := BroughtByCandidate(rules, t, admin, p, k);
      LinkOfCandidate(rules, t, admin, p, i, m, id);
      hide ImportedAll, Preferred;
      assert LinkStays(p, p.chosen[i], m);
    }
    if StaysLinked(rules, t, p, id) {
      var i, m :| GoesTo(rules, t, p, i, id) && 0 <= m < |p.chosen[i].ids| && LinkStays(p, p.chosen[i], m);
      LinkOfCandidate(rules, t, admin, p, i, m, id);
      hide ImportedAll, Preferred;
      assert LinkKey(id, admin, p.chosen[i].ids[m]) in t'.links;
    }
  }

  ghost predicate RowKept(t: Tables, t': Tables, id: nat) {
    id in t.sites && id in t'.sites && t'.sites[id] == t.sites[id]
  }

  /** The last stages on a site that ends without a link of this main site. */
  lemma StagesOnUnlinked(t: Tables, affected: set<nat>, delete: bool, admin: nat, urls: set<string>, id: nat)
    requires id in t.sites && (LinkedBy(t.links, admin, id) ==> id in affected)
    requires !LinkedBy(Matched(Reconciled(t, affected, delete), admin, urls).links, admin, id)
    ensures var t' := Matched(Reconciled(t, affected, delete), admin, urls);
            var row, other, own := t.sites[id], LinkedByOther(t.links, admin, id), LinkedBy(t.links, admin, id);
            && (RowKept(t, t', id) <==>
                 || id !in affected
                 || (other && !row.autoDisabled)
                 || (!other && !own && !delete && !row.enabled))
            && (!other && !RowKept(t, t', id) ==>
                  if delete || own then id !in t'.sites else id in t'.sites && AutoDisabledNow(row, t'.sites[id]))
  {
    var t3 := Reconciled(t, affected, delete);
    var dropped := MismatchLinks(t3.links, admin, urls);
    var other, own := LinkedByOther(t.links, admin, id), LinkedBy(t.links, admin, id);
    assert HasLink(t.links, id) <==> other || own by {
      if HasLink(t.links, id) {
        var k :| k in t.links && k.site == id;
        assert k.admin == admin || k.admin != admin;
      }
    }
    assert HasLink(t.links - dropped, id) <==> other by {
      if other {
        var k :| k in t.links && k.site == id && k.admin != admin;
        assert k in t.links - dropped;
      }
      if HasLink(t.links - dropped, id) {
        var k :| k in t.links - dropped && k.site == id;
        assert k.admin != admin;
      }
    }
    assert id in MismatchSites(t3, admin, urls) <==> own && id in t3.sites && !other by {
      if own {
        var k :| k in t.links && k.site == id && k.admin == admin;
        assert k in dropped;
      }
    }
  }

  /** What spares a site that is not linked by this main site, as far as the tables and the plan
      tell before the run: nothing is imported into it; or another main site links to it and it is
      not auto-disabled; or it is off already, sites are not deleted, and no link written for it
      lasts beyond the reconcile. */
  ghost predicate Spared(rules: UrlRules, t: Tables, admin: nat, p: Plan, delete: bool, id: nat)
    requires id in t.sites
  {
    || !Imports(rules, t, p, id)
    || (LinkedByOther(t.links, admin, id) && !t.sites[id].autoDisabled)
    || (!LinkedByOther(t.links, admin, id) && !KeepsLink(rules, t, p, id) && !delete && !t.sites[id].enabled)
  }

  lemma OtherLinksStay(rules: UrlRules, t: Tables, admin: nat, p: Plan, id: nat)
    requires Consistent(t) && PlanOk(rules, p)
    ensures LinkedByOther(AfterCleanup(rules, t, admin, p).links, admin, id) <==> LinkedByOther(t.links, admin, id)
  {
    SyncLeavesOthers(rules, t, admin, p, false);
    var t2, t' := AfterCleanup(rules, t, admin, p), Synced(rules, t, admin, p, false);
    hide ImportedAll, Preferred;
    assert forall k: LinkKey :: k.admin != admin ==> (k in t2.links <==> k in t'.links);
    assert LinkedByOther(t2.links, admin, id) <==> LinkedByOther(t'.links, admin, id);
    assert LinkedByOther(t'.links, admin, id) <==> LinkedByOther(t.links, admin, id);
  }

  /** A site that this main site links to neither before nor after a run keeps its row exactly if it
      is spared, for every plan.  Otherwise, if nobody else links to it, it is auto-disabled or
      deleted. */
  lemma UnlinkedSiteUntouchedIff(rules: UrlRules, t: Tables, admin: nat, p: Plan, delete: bool, id: nat)
    requires Consistent(t) && PlanOk(rules, p) && id in t.sites
    requires !LinkedBy(t.links, admin, id) && !StaysLinked(rules, t, p, id)
    ensures var t' := Synced(rules, t, admin, p, delete);
            && !LinkedBy(t'.links, admin, id)
            && (RowKept(t, t', id) <==> Spared(rules, t, admin, p, delete, id))
            && (!LinkedByOther(t.links, admin, id) && !Spared(rules, t, admin, p, delete, id) ==>
                  if delete || KeepsLink(rules, t, p, id) then id !in t'.sites
                  else id in t'.sites && AutoDisabledNow(t.sites[id], t'.sites[id]))
  {
    StaysLinkedIff(rules, t, admin, p, delete, id);
    ImportsIff(rules, t, admin, p, id);
    KeepsLinkIff(rules, t, admin, p, id);
    ImportKeepsSites(rules, t, admin, p, id);
    OtherLinksStay(rules, t, admin, p, id);
    hide ImportedAll, Preferred, LinkedByOther, Imports, KeepsLink, StaysLinked;
    AffectedIff(rules, t, admin, p, id);
    StagesOnUnlinked(AfterCleanup(rules, t, admin, p), Affected(rules, t, admin, p), delete, admin, p.mismatched, id);
  }

  lemma AffectedIff(rules: UrlRules, t: Tables, admin: nat, p: Plan, id: nat)
    ensures id in Affected(rules, t, admin, p) <==> LinkedBy(AfterImport(rules, t, admin, p).links, admin, id)
    ensures LinkedBy(AfterCleanup(rules, t, admin, p).links, admin, id) ==> id in Affected(rules, t, admin, p)
  {
    hide ImportedAll, Preferred;
    var t1, t2 := AfterImport(rules, t, admin, p), AfterCleanup(rules, t, admin, p);
    assert forall k :: k in t2.links ==> k in t1.links;
  }

  // ---------------------------------------------------------------------------------------
  // Runs
  // ---------------------------------------------------------------------------------------

  datatype Call = Call(admin: nat, plan: Plan, delete: bool)

  ghost function After(rules: UrlRules, t: Tables, call: Call): Tables {
    Synced(rules, t, call.admin, call.plan, call.delete)
  }

  ghost function Run(rules: UrlRules, t: Tables, calls: seq<Call>): Tables
    decreases |calls|
  {
    if calls == [] then t else Run(rules, After(rules, t, calls[0]), calls[1..])
  }

  ghost predicate PlansOk(rules: UrlRules, calls: seq<Call>) {
    forall i :: 0 <= i < |calls| ==> PlanOk(rules, calls[i].plan)
  }

  ghost predicate HandDisabled(t: Tables, id: nat) {
    id in t.sites && !t.sites[id].enabled && !t.sites[id].autoDisabled
  }

  /** A site disabled by hand is never switched back on: it keeps its row, or it is deleted. */
  lemma {:induction false} HandDisabledForever(rules: UrlRules, t: Tables, calls: seq<Call>, id: nat)
    requires Consistent(t) && PlansOk(rules, calls) && HandDisabled(t, id)
    ensures var t' := Run(rules, t, calls);
            id in t'.sites ==> t'.sites[id] == t.sites[id]
    decreases |calls|
  {
    if calls != [] {
      var call := calls[0];
      assert PlanOk(rules, calls[0].plan);
      SyncOnSite(rules, t, call.admin, call.plan, call.delete, id);
      var t1 := After(rules, t, call);
      if id in t1.sites {
        HandDisabledForever(rules, t1, calls[1..], id);
      } else {
        SiteIdsGrow(rules, t, call);
        DeletedForever(rules, t1, calls[1..], id);
      }
    }
  }

  lemma SiteIdsGrow(rules: UrlRules, t: Tables, call: Call)
    requires Consistent(t) && PlanOk(rules, call.plan)
    ensures Consistent(After(rules, t, call)) && t.nextSite <= After(rules, t, call).nextSite
  {
    PlanCandidatesOk(rules, call.plan);
    ImportAllConsistent(rules, t, call.admin, call.plan.chosen);
    SyncConsistent(rules, t, call.admin, call.plan, call.delete);
  }

  lemma NewSitesAreNew(rules: UrlRules, t: Tables, admin: nat, cs: seq<Candidate>, id: nat)
    requires Consistent(t) && id < t.nextSite && id !in t.sites
    requires forall i :: 0 <= i < |cs| ==> CandidateOk(rules, cs[i])
    ensures id !in ImportedAll(rules, t, admin, cs).sites
    decreases |cs|
  {
    if cs != [] {
      NewSitesAreNew(rules, t, admin, cs[..|cs| - 1], id);
      ImportAllConsistent(rules, t, admin, cs[..|cs| - 1]);
    }
  }

  lemma {:induction false} DeletedForever(rules: UrlRules, t: Tables, calls: seq<Call>, id: nat)
    requires Consistent(t) && PlansOk(rules, calls) && id < t.nextSite && id !in t.sites
    ensures id !in Run(rules, t, calls).sites
    decreases |calls|
  {
    if calls != [] {
      var call := calls[0];
      assert PlanOk(rules, calls[0].plan);
      SiteIdsGrow(rules, t, call);
      PlanCandidatesOk(rules, call.plan);
      NewSitesAreNew(rules, t, call.admin, call.plan.chosen, id);
      DeletedForever(rules, After(rules, t, call), calls[1..], id);
    }
  }

  /** An auto-disabled site has no link from any main site. */
  ghost predicate AutoDisabledUnlinked(t: Tables) {
    forall k :: k in t.links && k.site in t.sites ==> !t.sites[k.site].autoDisabled
  }

  lemma SyncKeepsAutoDisabledUnlinked(rules: UrlRules, t: Tables, call: Call)
    requires Consistent(t) && PlanOk(rules, call.plan) && AutoDisabledUnlinked(t)
    ensures Consistent(After(rules, t, call)) && AutoDisabledUnlinked(After(rules, t, call))
  {
    var t' := After(rules, t, call);
    SyncConsistent(rules, t, call.admin, call.plan, call.delete);
    ReconciledEnables(AfterCleanup(rules, t, call.admin, call.plan), Affected(rules, t, call.admin, call.plan),
                      call.delete, call.admin, call.plan.mismatched);
    hide ImportedAll, Preferred;
    forall k | k in t'.links && k.site in t'.sites && k.admin != call.admin
      ensures !t'.sites[k.site].autoDisabled
    {
      SyncLeavesOthers(rules, t, call.admin, call.plan, call.delete);
      SyncOnSite(rules, t, call.admin, call.plan, call.delete, k.site);
      assert HasLink(t'.links, k.site);
    }
  }

  /** Over any run, auto-disabled sites stay unlinked: a site whose link returns is switched on by
      the very sync that brings the link back, and none is switched off while linked. */
  lemma {:induction false} RunKeepsAutoDisabledUnlinked(rules: UrlRules, t: Tables, calls: seq<Call>)
    requires Consistent(t) && PlansOk(rules, calls) && AutoDisabledUnlinked(t)
    ensures Consistent(Run(rules, t, calls)) && AutoDisabledUnlinked(Run(rules, t, calls))
    decreases |calls|
  {
    if calls != [] {
      assert PlanOk(rules, calls[0].plan);
      SyncKeepsAutoDisabledUnlinked(rules, t, calls[0]);
      RunKeepsAutoDisabledUnlinked(rules, After(rules, t, calls[0]), calls[1..]);
    }
  }

  /** An auto-disabled site that this main site links to after the run is enabled again. */
  lemma ReturningLinkReenables(rules: UrlRules, t: Tables, call: Call, id: nat)
    requires Consistent(t) && PlanOk(rules, call.plan)
    requires id in t.sites && t.sites[id].autoDisabled
    requires id in AdminSites(After(rules, t, call).links, call.admin)
    ensures var t' := After(rules, t, call);
            id in t'.sites && t'.sites[id].enabled && !t'.sites[id].autoDisabled
  {
    SyncConsistent(rules, t, call.admin, call.plan, call.delete);
    ReconciledEnables(AfterCleanup(rules, t, call.admin, call.plan), Affected(rules, t, call.admin, call.plan),
                      call.delete, call.admin, call.plan.mismatched);
    var t' := After(rules, t, call);
    var k :| k in t'.links && k.admin == call.admin && k.site == id;
    SyncOnSite(rules, t, call.admin, call.plan, call.delete, id);
  }

  /** No main site links to the site at the start or the end of any step of the run. */
  ghost predicate NeverLinked(rules: UrlRules, t: Tables, calls: seq<Call>, id: nat)
    decreases |calls|
  {
    !HasLink(t.links, id) && (calls != [] ==> NeverLinked(rules, After(rules, t, calls[0]), calls[1..], id))
  }

  /** Every step of the run spares the site. */
  ghost predicate SparedThroughout(rules: UrlRules, t: Tables, calls: seq<Call>, id: nat)
    decreases |calls|
  {
    calls != [] ==>
      && id in t.sites
      && Spared(rules, t, calls[0].admin, calls[0].plan, calls[0].delete, id)
      && SparedThroughout(rules, After(rules, t, calls[0]), calls[1..], id)
  }

  /** One step on a site that nobody links to. */
  lemma UnlinkedStep(rules: UrlRules, t: Tables, call: Call, id: nat)
    requires Consistent(t) && PlanOk(rules, call.plan) && id in t.sites
    requires !HasLink(t.links, id) && !HasLink(After(rules, t, call).links, id)
    ensures var t' := After(rules, t, call);
            && Consistent(t') && t.nextSite <= t'.nextSite
            && (Spared(rules, t, call.admin, call.plan, call.delete, id) ==> RowKept(t, t', id))
            && (!Spared(rules, t, call.admin, call.plan, call.delete, id) ==>
                  id !in t'.sites || AutoDisabledNow(t.sites[id], t'.sites[id]))
  {
    SiteIdsGrow(rules, t, call);
    var t' := After(rules, t, call);
    assert !LinkedBy(t.links, call.admin, id) && !LinkedByOther(t.links, call.admin, id);
    assert !LinkedBy(t'.links, call.admin, id);
    StaysLinkedIff(rules, t, call.admin, call.plan, call.delete, id);
    UnlinkedSiteUntouchedIff(rules, t, call.admin, call.plan, call.delete, id);
  }

  lemma OffStep(rules: UrlRules, t: Tables, call: Call, id: nat)
    requires Consistent(t) && PlanOk(rules, call.plan) && id in t.sites && !t.sites[id].enabled
    requires !HasLink(t.links, id) && !HasLink(After(rules, t, call).links, id)
    ensures var t' := After(rules, t, call);
            Consistent(t') && id < t'.nextSite && (id in t'.sites ==> !t'.sites[id].enabled)
  {
    hide After, Spared;
    UnlinkedStep(rules, t, call, id);
  }

  /** A site that is off and never linked stays off, or goes. */
  lemma {:induction false} OffStaysOff(rules: UrlRules, t: Tables, calls: seq<Call>, id: nat)
    requires Consistent(t) && PlansOk(rules, calls) && id in t.sites && NeverLinked(rules, t, calls, id)
    requires !t.sites[id].enabled
    ensures id in Run(rules, t, calls).sites ==> !Run(rules, t, calls).sites[id].enabled
    decreases |calls|
  {
    hide After, Consistent, PlanOk;
    if calls != [] {
      assert PlanOk(rules, calls[0].plan);
      var t1 := After(rules, t, calls[0]);
      assert NeverLinked(rules, t1, calls[1..], id);
      OffStep(rules, t, calls[0], id);
      if id in t1.sites {
        OffStaysOff(rules, t1, calls[1..], id);
      } else {
        DeletedForever(rules, t1, calls[1..], id);
      }
    }
  }

  /** Over any run, a site that nobody ever links to keeps its row exactly if every step spares it. */
  lemma {:induction false} NeverLinkedUntouchedIff(rules: UrlRules, t: Tables, calls: seq<Call>, id: nat)
    requires Consistent(t) && PlansOk(rules, calls) && id in t.sites && NeverLinked(rules, t, calls, id)
    ensures RowKept(t, Run(rules, t, calls), id) <==> SparedThroughout(rules, t, calls, id)
    decreases |calls|
  {
    if calls != [] {
      assert PlanOk(rules, calls[0].plan);
      var t1 := After(rules, t, calls[0]);
      assert NeverLinked(rules, t1, calls[1..], id);
      UnlinkedStep(rules, t, calls[0], id);
      hide Spared;
      if RowKept(t, t1, id) {
        NeverLinkedUntouchedIff(rules, t1, calls[1..], id);
      } else if id in t1.sites {
        OffStaysOff(rules, t1, calls[1..], id);
      } else {
        DeletedForever(rules, t1, calls[1..], id);
      }
    }
  }

  /** A plan whose links all stay recognizable spares every site it leaves unlinked. */
  lemma RecognizedLinksSpare(rules: UrlRules, t: Tables, admin: nat, p: Plan, delete: bool, id: nat)
    requires PlanOk(rules, p) && AllStay(p) && id in t.sites
    ensures Imports(rules, t, p, id) ==> StaysLinked(rules, t, p, id)
    ensures !StaysLinked(rules, t, p, id) ==> Spared(rules, t, admin, p, delete, id)
  {
    PlanCandidatesOk(rules, p);
    if Imports(rules, t, p, id) {
      var i :| GoesTo(rules, t, p, i, id);
      assert CandidateOk(rules, p.chosen[i]);
      assert LinkStays(p, p.chosen[i], 0);
    }
  }

  /** In particular a site that was on and that nobody linked to is lost, if a candidate goes there and
      none of the links written for it stays: it is switched off, or deleted where sites are deleted
      or where a link outlived the reconcile. */
  lemma UnrecognizedLinkCostsTheSite(rules: UrlRules, t: Tables, admin: nat, p: Plan, delete: bool, i: nat, id: nat)
    requires Consistent(t) && PlanOk(rules, p) && GoesTo(rules, t, p, i, id)
    requires t.sites[id].enabled && !HasLink(t.links, id) && !StaysLinked(rules, t, p, id)
    ensures var t' := Synced(rules, t, admin, p, delete);
            && !Spared(rules, t, admin, p, delete, id)
            && !HasLink(t'.links, id)
            && if delete || KeepsLink(rules, t, p, id) then id !in t'.sites
               else id in t'.sites && AutoDisabledNow(t.sites[id], t'.sites[id])
  {
    assert !LinkedBy(t.links, admin, id) && !LinkedByOther(t.links, admin, id);
    UnlinkedSiteUntouchedIff(rules, t, admin, p, delete, id);
    SyncLeavesOthers(rules, t, admin, p, delete);
    hide ImportedAll, Preferred;
  }

  /** A channel URL one character too long for the column, and a site of the same domain. */
  const LONG_URL := "https://b.example.com/" + seq(491, _ => 'a')
  const SITE_URL := "https://a.example.com"

  lemma LongUrl()
    ensures |LONG_URL| == URL_WIDTH + 1 && "https://" <= LONG_URL
    ensures Strip(LONG_URL) == LONG_URL && Normalize(LONG_URL) == LONG_URL && !FitsWidth(LONG_URL, URL_WIDTH)
  {
    assert LONG_URL[URL_WIDTH] == 'a' && LONG_URL[0] == 'h';
    StripFixedIff(LONG_URL);
  }

  /** With such a channel, a run switches off a site of its domain that was on, was never linked before
      and has no link afterwards. */
  lemma LongUrlCostsTheSite(name: string)
    returns (rules: UrlRules, t: Tables, p: Plan)
    ensures p == MakePlan(rules, [Channel(1, name, LONG_URL)], AllChannels, _ => true)
    ensures rules.Usable(Channel(1, name, LONG_URL)) && rules.mergeKey(LONG_URL) == "example.com"
    ensures Consistent(t) && PlanOk(rules, p) && 1 in t.sites && t.sites[1].enabled && !HasLink(t.links, 1)
    ensures |t.sites[1].baseUrl| <= URL_WIDTH
    ensures !StaysLinked(rules, t, p, 1) && !Spared(rules, t, 1, p, false, 1)
    ensures var t' := Synced(rules, t, 1, p, false);
            !HasLink(t'.links, 1) && 1 in t'.sites && AutoDisabledNow(t.sites[1], t'.sites[1])
  {
    rules := UrlRules(_ => "example.com", u => "https://" <= u);
    t := Tables(map[1 := SiteRow("s", SITE_URL, "newapi", true, false)], map[], {}, {}, 2, 1);
    p := MakePlan(rules, [Channel(1, name, LONG_URL)], AllChannels, _ => true);
    LongUrl();
    MakePlanOk(rules, [Channel(1, name, LONG_URL)], AllChannels, _ => true);
    OneChannelPlan(rules, name, p);
    SameDomainFits(rules, t);
    hide MakePlan, PlanOk, Synced, IsFit, Spared, StaysLinked, KeepsLink, Normalize, Strip;
    LongUrlIsNotKept(rules, t, p);
    UnrecognizedLinkCostsTheSite(rules, t, 1, p, false, 0, 1);
  }

  lemma SameDomainFits(rules: UrlRules, t: Tables)
    requires t.sites.Keys == {1} && t.sites[1].baseUrl == SITE_URL
    requires rules.mergeKey(LONG_URL) == rules.mergeKey(SITE_URL) != ""
    ensures IsFit(rules, t.sites, LONG_URL, 1)
  {
    hide RStripSlash;
    assert forall j :: j in t.sites ==> j == 1;
    assert Rank(rules, t.sites[1], LONG_URL) < 3;
  }

  lemma LongUrlIsNotKept(rules: UrlRules, t: Tables, p: Plan)
    requires |p.chosen| == 1 && p.chosen[0].ids == [1] && p.chosen[0].urls == [LONG_URL]
    ensures !KeepsLink(rules, t, p, 1) && !StaysLinked(rules, t, p, 1)
  {
    LongUrl();
    CutKeepsUrlIff(LONG_URL, URL_WIDTH);
    var c := p.chosen[0];
    assert LiveUrl(c, 0) == LONG_URL && LinkUrl(c, 0) == Prefix(LONG_URL, URL_WIDTH);
    assert !LinkIsOwn(c, 0);
  }

  lemma OneChannelPlan(rules: UrlRules, name: string, p: Plan)
    requires rules.acceptable(LONG_URL)
    requires p == MakePlan(rules, [Channel(1, name, LONG_URL)], AllChannels, _ => true)
    ensures |p.chosen| == 1 && p.mismatched == {}
    ensures var c := p.chosen[0]; c.baseUrl == LONG_URL && c.ids == [1] && c.urls == [LONG_URL]
  {
    LongUrl();
    var channels := [Channel(1, name, LONG_URL)];
    assert channels[..0] == [];
    assert rules.ChannelUrl(channels[0]) == LONG_URL;
    assert Grouped(rules, []) == [];
    var groups := Grouped(rules, channels);
    assert |groups| == 1;
    ChooseAll(_ => true, p.candidates);
  }

  // ---------------------------------------------------------------------------------------
  // One monitoring site per registered domain
  // ---------------------------------------------------------------------------------------

  ghost predicate OneSitePerMergeKey(rules: UrlRules, t: Tables) {
    forall i, j :: i in t.sites && j in t.sites && i != j && rules.mergeKey(t.sites[i].baseUrl) != ""
      ==> rules.mergeKey(t.sites[i].baseUrl) != rules.mergeKey(t.sites[j].baseUrl)
  }

  lemma {:induction false} ImportKeepsOnePerMergeKey(rules: UrlRules, t: Tables, admin: nat, cs: seq<Candidate>)
    requires OneSitePerMergeKey(rules, t)
    ensures OneSitePerMergeKey(rules, ImportedAll(rules, t, admin, cs))
    decreases |cs|
  {
    if cs != [] {
      var prior, c := cs[..|cs| - 1], cs[|cs| - 1];
      ImportKeepsOnePerMergeKey(rules, t, admin, prior);
      var t1 := ImportedAll(rules, t, admin, prior);
      if Fit(rules, t1.sites, c.baseUrl).None? {
        forall j | j in t1.sites
          ensures rules.mergeKey(c.baseUrl) != "" ==> rules.mergeKey(t1.sites[j].baseUrl) != rules.mergeKey(c.baseUrl)
        {
          if Rank(rules, t1.sites[j], c.baseUrl) < 3 {
            FitIfAny(rules, t1.sites, c.baseUrl, j);
          }
        }
      }
    }
  }

  lemma {:induction false} RunKeepsOnePerMergeKey(rules: UrlRules, t: Tables, calls: seq<Call>)
    requires OneSitePerMergeKey(rules, t)
    ensures OneSitePerMergeKey(rules, Run(rules, t, calls))
    decreases |calls|
  {
    if calls != [] {
      ImportKeepsOnePerMergeKey(rules, t, calls[0].admin, calls[0].plan.chosen);
      var t1 := AfterCleanup(rules, t, calls[0].admin, calls[0].plan);
      StagesKeepUrls(t1, Affected(rules, t, calls[0].admin, calls[0].plan), calls[0].delete, calls[0].admin,
                     calls[0].plan.mismatched);
      RunKeepsOnePerMergeKey(rules, After(rules, t, calls[0]), calls[1..]);
    }
  }
}
