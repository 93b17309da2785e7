/** What a main-site sync guarantees: it reaches a settled state in one run, a settled state is a
    fixed point, and over any sequence of runs local sites are only ever disabled, re-enabled or
    deleted as their remaining links allow. */
module SyncTheorems {
  import opened Options
  import opened Urls
  import opened Candidates
  import opened SiteTables

  // ---------------------------------------------------------------------------------------
  // Plans
  // ---------------------------------------------------------------------------------------

  /** What `MakePlan` guarantees about a plan. */
  ghost predicate PlanOk(rules: UrlRules, p: Plan) {
    && WellFormed(rules, p.chosen)
    && (forall i, m :: 0 <= i < |p.chosen| && 0 <= m < |p.chosen[i].ids| ==>
          p.chosen[i].ids[m] in p.live && p.live[p.chosen[i].ids[m]] == LiveUrl(p.chosen[i], m))
  }

  /** `cs'` is `cs` with some elements left out; `at` says where the others stood. */
  ghost predicate IsEmbedding(cs': seq<Candidate>, cs: seq<Candidate>, at: seq<nat>) {
    && |at| == |cs'|
    && (forall i :: 0 <= i < |at| ==> at[i] < |cs| && cs'[i] == cs[at[i]])
    && (forall i, j :: 0 <= i < j < |at| ==> at[i] < at[j])
  }

  lemma {:induction false} ChooseEmbeds(scope: Scope, syncable: string -> bool, cs: seq<Candidate>) returns (at: seq<nat>)
    ensures IsEmbedding(Choose(scope, syncable, cs), cs, at)
    ensures forall i :: 0 <= i < |at| ==> IsChosen(scope, syncable, Choose(scope, syncable, cs)[i])
    decreases |cs|
  {
    if cs == [] {
      at := [];
    } else {
      var prior := cs[..|cs| - 1];
      at := ChooseEmbeds(scope, syncable, prior);
      if IsChosen(scope, syncable, cs[|cs| - 1]) {
        at := at + [|cs| - 1];
      }
    }
  }

  lemma MakePlanOk(rules: UrlRules, channels: seq<Channel>, scope: Scope, syncable: string -> bool)
    requires NormalizedList(channels)
    ensures PlanOk(rules, MakePlan(rules, channels, scope, syncable))
  {
    var p := MakePlan(rules, channels, scope, syncable);
    AggregatePartitions(rules, channels);
    var at := ChooseEmbeds(scope, syncable, p.candidates);
    forall i, m | 0 <= i < |p.chosen| && 0 <= m < |p.chosen[i].ids|
      ensures p.chosen[i].ids[m] in p.live && p.live[p.chosen[i].ids[m]] == LiveUrl(p.chosen[i], m)
    {
      LiveUrlsLookup(rules, p.candidates, at[i], m);
    }
  }

  /** The stored link of position `m` is still recognized as the channel's own URL, and is not
      taken for a mismatched site. */
  ghost predicate LinkStays(p: Plan, c: Candidate, m: nat) {
    && (LiveUrl(c, m) != "" ==> Normalize(LinkUrl(c, m)) == LiveUrl(c, m))
    && Normalize(LinkUrl(c, m)) !in NormalizedUrls(p.mismatched)
  }

  ghost predicate AllStay(p: Plan) {
    forall i, m :: 0 <= i < |p.chosen| && 0 <= m < |p.chosen[i].ids| ==> LinkStays(p, p.chosen[i], m)
  }

  /** Exactly when that is so: the stripped URL fits the column, and is not that of a mismatched
      site. */
  lemma LinkStaysIff(p: Plan, c: Candidate, m: nat)
    requires m < |c.urls| && Normalize(c.urls[m]) != ""
    ensures LinkStays(p, c, m) <==>
      FitsWidth(Strip(c.urls[m]), URL_WIDTH) && LiveUrl(c, m) !in NormalizedUrls(p.mismatched)
  {
    var s := Strip(c.urls[m]);
    StripTrims(c.urls[m]);
    StripFixedIff(s);
    assert RStripSlash("") == "";
    CutKeepsUrlIff(s, URL_WIDTH);
  }

  // ---------------------------------------------------------------------------------------
  // Import
  // ---------------------------------------------------------------------------------------

  ghost predicate LinkIs(links: map<LinkKey, LinkRow>, k: LinkKey, url: string, name: string) {
    k in links && links[k].url == url && links[k].name == name
  }

  /** The candidate's best fitting site carries a link for each of its channels. */
  ghost predicate AttachedTo(rules: UrlRules, t: Tables, admin: nat, c: Candidate, site: nat) {
    && IsFit(rules, t.sites, c.baseUrl, site)
    && forall m :: 0 <= m < |c.ids| ==> LinkIs(t.links, LinkKey(site, admin, c.ids[m]), LinkUrl(c, m), LinkName(c, m))
  }

  ghost predicate LinkIdsBelow(links: map<LinkKey, LinkRow>, next: nat) {
    && (forall k :: k in links ==> links[k].id < next)
    && (forall k, k' :: k in links && k' in links && links[k].id == links[k'].id ==> k == k')
  }

  lemma OneLinkIds(links: map<LinkKey, LinkRow>, next: nat, key: LinkKey, row: LinkRow)
    requires LinkIdsBelow(links, next) && row.id == if key in links then links[key].id else next
    ensures LinkIdsBelow(links[key := row], next + 1)
  {
  }

  lemma {:induction false} WithLinksIds(links: map<LinkKey, LinkRow>, next: nat, site: nat, admin: nat, c: Candidate, n: nat)
    requires n <= |c.ids| && LinkIdsBelow(links, next)
    ensures LinkIdsBelow(WithLinks(links, next, site, admin, c, n), next + n)
  {
    if n > 0 {
      WithLinksIds(links, next, site, admin, c, n - 1);
      hide LinkIdsBelow;
      var prior := WithLinks(links, next, site, admin, c, n - 1);
      var key := LinkKey(site, admin, c.ids[n - 1]);
      var ls := WithLinks(links, next, site, admin, c, n);
      OneLinkIds(prior, next + n - 1, key, ls[key]);
    }
  }

  lemma {:induction false} WithLinksRow(links: map<LinkKey, LinkRow>, next: nat, site: nat, admin: nat, c: Candidate, n: nat, m: nat)
    requires m < n <= |c.ids| && Distinct(c.ids)
    ensures LinkIs(WithLinks(links, next, site, admin, c, n), LinkKey(site, admin, c.ids[m]), LinkUrl(c, m), LinkName(c, m))
  {
    if m < n - 1 {
      WithLinksRow(links, next, site, admin, c, n - 1, m);
    }
  }

  /** Links of other sites, main sites or channels. */
  lemma {:induction false} WithLinksFrame(links: map<LinkKey, LinkRow>, next: nat, site: nat, admin: nat, c: Candidate, n: nat)
    requires n <= |c.ids|
    ensures var ls := WithLinks(links, next, site, admin, c, n);
            && (forall k :: k in links ==> k in ls)
            && (forall k :: k in ls && !(k.site == site && k.admin == admin && k.channel in c.ids) ==>
                  k in links && ls[k] == links[k])
  {
    if n > 0 {
      WithLinksFrame(links, next, site, admin, c, n - 1);
    }
  }

  lemma {:induction false} WithLinksFixed(links: map<LinkKey, LinkRow>, next: nat, site: nat, admin: nat, c: Candidate, n: nat)
    requires n <= |c.ids|
    requires forall m :: 0 <= m < |c.ids| ==> LinkIs(links, LinkKey(site, admin, c.ids[m]), LinkUrl(c, m), LinkName(c, m))
    ensures WithLinks(links, next, site, admin, c, n) == links
  {
    if n > 0 {
      WithLinksFixed(links, next, site, admin, c, n - 1);
      var k := LinkKey(site, admin, c.ids[n - 1]);
      assert LinkIs(links, k, LinkUrl(c, n - 1), LinkName(c, n - 1));
      assert links[k := links[k]] == links;
    }
  }

  lemma SiteForFits(rules: UrlRules, t: Tables, c: Candidate)
    requires Consistent(t) && CandidateOk(rules, c)
    ensures IsFit(rules, WithSite(rules, t, c).sites, c.baseUrl, SiteFor(rules, t, c))
  {
    var sites' := WithSite(rules, t, c).sites;
    var site := SiteFor(rules, t, c);
    if Fit(rules, t.sites, c.baseUrl).None? {
      forall j | j in sites'
        ensures Precedes(rules, sites', c.baseUrl, site, j)
      {
        if j in t.sites && Rank(rules, t.sites[j], c.baseUrl) < 3 {
          FitIfAny(rules, t.sites, c.baseUrl, j);
        }
      }
    }
  }

  lemma ImportAttaches(rules: UrlRules, t: Tables, admin: nat, c: Candidate)
    requires Consistent(t) && CandidateOk(rules, c)
    ensures var t' := Imported(rules, t, admin, c);
            && Consistent(t')
            && AttachedTo(rules, t', admin, c, SiteFor(rules, t, c))
            && t.nextSite <= t'.nextSite
            && (forall id :: id in t.sites ==> id in t'.sites && t'.sites[id] == t.sites[id])
            && (forall k :: k in t.links ==> k in t'.links)
            && (forall k :: k in t'.links && !(k.site == SiteFor(rules, t, c) && k.admin == admin && k.channel in c.ids) ==>
                  k in t.links && t'.links[k] == t.links[k])
  {
    var site := SiteFor(rules, t, c);
    SiteForFits(rules, t, c);
    WithLinksIds(t.links, t.nextLink, site, admin, c, |c.ids|);
    WithLinksFrame(t.links, t.nextLink, site, admin, c, |c.ids|);
    forall m | 0 <= m < |c.ids|
      ensures LinkIs(Imported(rules, t, admin, c).links, LinkKey(site, admin, c.ids[m]), LinkUrl(c, m), LinkName(c, m))
    {
      WithLinksRow(t.links, t.nextLink, site, admin, c, |c.ids|, m);
    }
  }

  /** A later import disturbs neither the fit nor the links of an earlier candidate. */
  lemma ImportKeepsAttached(rules: UrlRules, t: Tables, admin: nat, earlier: Candidate, site: nat, c: Candidate)
    requires Consistent(t) && CandidateOk(rules, c) && CandidateOk(rules, earlier)
    requires earlier.key != c.key && Disjoint(earlier.ids, c.ids)
    requires AttachedTo(rules, t, admin, earlier, site)
    ensures AttachedTo(rules, Imported(rules, t, admin, c), admin, earlier, site)
  {
    ImportAttaches(rules, t, admin, c);
    var t' := Imported(rules, t, admin, c);
    forall j | j in t'.sites
      ensures Precedes(rules, t'.sites, earlier.baseUrl, site, j)
    {
      if j in t.sites {
        assert Precedes(rules, t.sites, earlier.baseUrl, site, j);
      } else {
        assert t'.sites[j] == NewSite(c);
        assert Rank(rules, NewSite(c), earlier.baseUrl) == 3;
      }
    }
    forall m | 0 <= m < |earlier.ids|
      ensures LinkIs(t'.links, LinkKey(site, admin, earlier.ids[m]), LinkUrl(earlier, m), LinkName(earlier, m))
    {
      assert earlier.ids[m] in earlier.ids;
      var k := LinkKey(site, admin, earlier.ids[m]);
      assert LinkIs(t.links, k, LinkUrl(earlier, m), LinkName(earlier, m));
    }
  }

  ghost predicate Attached(rules: UrlRules, t: Tables, admin: nat, c: Candidate) {
    exists site :: AttachedTo(rules, t, admin, c, site)
  }

  ghost predicate PrefersAll(preferred: map<nat, nat>, c: Candidate, site: nat) {
    forall m :: 0 <= m < |c.ids| ==> c.ids[m] in preferred && preferred[c.ids[m]] == site
  }

  /** A link that import added or rewrote belongs to a channel of one of these candidates. */
  ghost predicate ImportedLink(preferred: map<nat, nat>, admin: nat, k: LinkKey) {
    k.admin == admin && k.channel in preferred && preferred[k.channel] == k.site
  }

  lemma PreferredPrefix(rules: UrlRules, cs: seq<Candidate>)
    requires WellFormed(rules, cs) && cs != []
    ensures WellFormed(rules, cs[..|cs| - 1])
  {
  }

  lemma {:induction false} PreferredKeys(rules: UrlRules, t: Tables, admin: nat, cs: seq<Candidate>, id: nat)
    requires id in Preferred(rules, t, admin, cs)
    ensures exists i :: 0 <= i < |cs| && id in cs[i].ids
    decreases |cs|
  {
    var prior, c := cs[..|cs| - 1], cs[|cs| - 1];
    if id in c.ids {
      assert id in cs[|cs| - 1].ids;
    } else {
      PreferredKeys(rules, t, admin, prior, id);
      var i :| 0 <= i < |prior| && id in prior[i].ids;
      assert id in cs[i].ids;
    }
  }

  lemma {:induction false} ImportAllConsistent(rules: UrlRules, t: Tables, admin: nat, cs: seq<Candidate>)
    requires Consistent(t) && forall i :: 0 <= i < |cs| ==> CandidateOk(rules, cs[i])
    ensures var t' := ImportedAll(rules, t, admin, cs);
            && Consistent(t')
            && t.nextSite <= t'.nextSite
            && t'.bindings == t.bindings && t'.keys == t.keys
            && (forall id :: id in t.sites ==> id in t'.sites && t'.sites[id] == t.sites[id])
            && (forall k :: k in t.links ==> k in t'.links)
    decreases |cs|
  {
    if cs != [] {
      var prior := cs[..|cs| - 1];
      ImportAllConsistent(rules, t, admin, prior);
      assert CandidateOk(rules, cs[|cs| - 1]);
      ImportAttaches(rules, ImportedAll(rules, t, admin, prior), admin, cs[|cs| - 1]);
    }
  }

  /** Only links that the imported candidates asked for are new or rewritten. */
  lemma {:induction false} ImportAllFrame(rules: UrlRules, t: Tables, admin: nat, cs: seq<Candidate>, k: LinkKey)
    requires WellFormed(rules, cs)
    requires k in ImportedAll(rules, t, admin, cs).links
    ensures || ImportedLink(Preferred(rules, t, admin, cs), admin, k)
            || (k in t.links && ImportedAll(rules, t, admin, cs).links[k] == t.links[k])
    decreases |cs|
  {
    if cs != [] {
      var prior, c := cs[..|cs| - 1], cs[|cs| - 1];
      var t1 := ImportedAll(rules, t, admin, prior);
      ImportOneFrame(rules, t1, admin, c, k);
      PreferredGrows(rules, t, admin, cs, k);
      if k in t1.links {
        PreferredPrefix(rules, cs);
        ImportAllFrame(rules, t, admin, prior, k);
      }
    }
  }

  lemma ImportOneFrame(rules: UrlRules, t: Tables, admin: nat, c: Candidate, k: LinkKey)
    requires k in Imported(rules, t, admin, c).links
    ensures || (k.site == SiteFor(rules, t, c) && k.admin == admin && k.channel in c.ids)
            || (k in t.links && Imported(rules, t, admin, c).links[k] == t.links[k])
  {
    WithLinksFrame(t.links, t.nextLink, SiteFor(rules, t, c), admin, c, |c.ids|);
  }

  lemma PreferredGrows(rules: UrlRules, t: Tables, admin: nat, cs: seq<Candidate>, k: LinkKey)
    requires WellFormed(rules, cs) && cs != []
    ensures var c, t1 := cs[|cs| - 1], ImportedAll(rules, t, admin, cs[..|cs| - 1]);
            ImportedLink(Preferred(rules, t, admin, cs[..|cs| - 1]), admin, k)
            || (k.site == SiteFor(rules, t1, c) && k.admin == admin && k.channel in c.ids)
            ==> ImportedLink(Preferred(rules, t, admin, cs), admin, k)
  {
    var prior, c := cs[..|cs| - 1], cs[|cs| - 1];
    if ImportedLink(Preferred(rules, t, admin, prior), admin, k) {
      PreferredKeys(rules, t, admin, prior, k.channel);
      var i :| 0 <= i < |prior| && k.channel in prior[i].ids;
      assert Disjoint(cs[i].ids, cs[|cs| - 1].ids);
    } else if k.channel in c.ids {
      assert CandidateOk(rules, c);
      var m :| 0 <= m < |c.ids| && c.ids[m] == k.channel;
    }
  }

  lemma PrefersAllGrows(rules: UrlRules, t: Tables, admin: nat, cs: seq<Candidate>, i: nat, site: nat)
    requires WellFormed(rules, cs) && i < |cs| - 1
    requires PrefersAll(Preferred(rules, t, admin, cs[..|cs| - 1]), cs[i], site)
    ensures PrefersAll(Preferred(rules, t, admin, cs), cs[i], site)
  {
    var c := cs[|cs| - 1];
    assert Disjoint(cs[i].ids, c.ids);
    forall m | 0 <= m < |cs[i].ids|
      ensures cs[i].ids[m] in Preferred(rules, t, admin, cs) && Preferred(rules, t, admin, cs)[cs[i].ids[m]] == site
    {
      assert cs[i].ids[m] in cs[i].ids;
    }
  }

  lemma {:induction false} ImportAllAttaches(rules: UrlRules, t: Tables, admin: nat, cs: seq<Candidate>, i: nat)
    returns (site: nat)
    requires Consistent(t) && WellFormed(rules, cs) && i < |cs|
    ensures AttachedTo(rules, ImportedAll(rules, t, admin, cs), admin, cs[i], site)
    ensures PrefersAll(Preferred(rules, t, admin, cs), cs[i], site)
    decreases |cs|
  {
    var prior, c := cs[..|cs| - 1], cs[|cs| - 1];
    PreferredPrefix(rules, cs);
    assert CandidateOk(rules, c) && CandidateOk(rules, cs[i]);
    ImportAllConsistent(rules, t, admin, prior);
    var t1 := ImportedAll(rules, t, admin, prior);
    if i == |cs| - 1 {
      site := SiteFor(rules, t1, c);
      ImportAttaches(rules, t1, admin, c);
    } else {
      assert prior[i] == cs[i];
      site := ImportAllAttaches(rules, t, admin, prior, i);
      assert Disjoint(cs[i].ids, c.ids);
      ImportKeepsAttached(rules, t1, admin, cs[i], site, c);
      PrefersAllGrows(rules, t, admin, cs, i, site);
    }
  }

  // ---------------------------------------------------------------------------------------
  // The stages after the import, on any tables
  // ---------------------------------------------------------------------------------------

  ghost predicate OneLinkPerChannel(links: map<LinkKey, LinkRow>, admin: nat) {
    forall k, k' :: k in links && k' in links && k.admin == admin && k'.admin == admin && k.channel == k'.channel ==> k == k'
  }

  ghost predicate AllCurrent(links: map<LinkKey, LinkRow>, admin: nat, live: map<nat, string>) {
    forall k :: k in links && k.admin == admin ==> !Stale(live, k, links[k])
  }

  lemma CanonicalUnique(links: map<LinkKey, LinkRow>, admin: nat, live: map<nat, string>, preferred: map<nat, nat>,
                        k: LinkKey, k': LinkKey)
    requires forall i, j :: i in links && j in links && links[i].id == links[j].id ==> i == j
    requires Canonical(links, admin, live, preferred, k) && Canonical(links, admin, live, preferred, k')
    requires k.channel == k'.channel
    ensures k == k'
  {
  }

  lemma CleanedUp(t: Tables, admin: nat, p: Plan, preferred: map<nat, nat>)
    requires Consistent(t)
    ensures var t' := Cleaned(t, admin, p, preferred);
            Consistent(t') && OneLinkPerChannel(t'.links, admin) && AllCurrent(t'.links, admin, p.live)
  {
    var t' := Cleaned(t, admin, p, preferred);
    forall k, k' | k in t'.links && k' in t'.links && k.admin == admin && k'.admin == admin && k.channel == k'.channel
      ensures k == k'
    {
      CanonicalUnique(t.links, admin, p.live, preferred, k, k');
    }
  }

  /** No site that still has a link is deleted. */
  lemma ReconciledConsistent(t: Tables, affected: set<nat>, delete: bool)
    requires Consistent(t)
    ensures Consistent(Reconciled(t, affected, delete))
  {
    forall k | k in t.links
      ensures HasLink(t.links, k.site)
    {
    }
  }

  lemma MatchedConsistent(t: Tables, admin: nat, urls: set<string>)
    requires Consistent(t)
    ensures Consistent(Matched(t, admin, urls))
  {
    var links := t.links - MismatchLinks(t.links, admin, urls);
    forall k | k in links
      ensures HasLink(links, k.site)
    {
    }
  }

  lemma PlanCandidatesOk(rules: UrlRules, p: Plan)
    requires PlanOk(rules, p)
    ensures forall i :: 0 <= i < |p.chosen| ==> CandidateOk(rules, p.chosen[i])
  {
  }

  lemma SyncConsistent(rules: UrlRules, t: Tables, admin: nat, p: Plan, delete: bool)
    requires Consistent(t) && PlanOk(rules, p)
    ensures Consistent(AfterImport(rules, t, admin, p))
    ensures Consistent(AfterCleanup(rules, t, admin, p))
    ensures Consistent(Synced(rules, t, admin, p, delete))
  {
    PlanCandidatesOk(rules, p);
    ImportAllConsistent(rules, t, admin, p.chosen);
    CleanedUp(AfterImport(rules, t, admin, p), admin, p, Preferred(rules, t, admin, p.chosen));
    ReconciledConsistent(AfterCleanup(rules, t, admin, p), Affected(rules, t, admin, p), delete);
    MatchedConsistent(AfterReconcile(rules, t, admin, p, delete), admin, p.mismatched);
  }

  /** Unconditionally: a run leaves this main site's links current and unique per channel, and no
      binding or key of a vanished channel; and no site that still has a link is gone. */
  lemma SyncCleansUp(rules: UrlRules, t: Tables, admin: nat, p: Plan, delete: bool)
    requires Consistent(t) && PlanOk(rules, p)
    ensures var t' := Synced(rules, t, admin, p, delete);
            && AllCurrent(t'.links, admin, p.live)
            && OneLinkPerChannel(t'.links, admin)
            && (forall b :: b in t'.bindings || b in t'.keys ==> b.admin != admin || b.channel in p.liveIds)
            && Consistent(t')
  {
    SyncConsistent(rules, t, admin, p, delete);
    var t1 := AfterImport(rules, t, admin, p);
    CleanedUp(t1, admin, p, Preferred(rules, t, admin, p.chosen));
  }

  /** The rows of every other main site are as they were. */
  lemma SyncLeavesOthers(rules: UrlRules, t: Tables, admin: nat, p: Plan, delete: bool)
    requires Consistent(t) && PlanOk(rules, p)
    ensures var t' := Synced(rules, t, admin, p, delete);
            && (forall k: LinkKey :: k.admin != admin ==>
                  (k in t'.links <==> k in t.links) && (k in t.links ==> t'.links[k] == t.links[k] && k.site in t'.sites))
            && (forall b: ChannelKey :: b.admin != admin ==>
                  (b in t'.bindings <==> b in t.bindings) && (b in t'.keys <==> b in t.keys))
  {
    PlanCandidatesOk(rules, p);
    ImportAllConsistent(rules, t, admin, p.chosen);
    SyncConsistent(rules, t, admin, p, delete);
    var t1 := AfterImport(rules, t, admin, p);
    forall k: LinkKey | k.admin != admin
      ensures (k in t1.links <==> k in t.links) && (k in t.links ==> t1.links[k] == t.links[k])
    {
      if k in t1.links {
        ImportAllFrame(rules, t, admin, p.chosen, k);
      }
    }
  }

  // ---------------------------------------------------------------------------------------
  // Settled states
  // ---------------------------------------------------------------------------------------

  ghost predicate LinkedSitesEnabled(t: Tables, admin: nat) {
    forall k :: k in t.links && k.admin == admin ==> k.site in t.sites && !t.sites[k.site].autoDisabled
  }

  /** Nothing is left to do for this main site and snapshot. */
  ghost predicate Settled(rules: UrlRules, t: Tables, admin: nat, p: Plan) {
    && AllCurrent(t.links, admin, p.live)
    && OneLinkPerChannel(t.links, admin)
    && LinkedSitesEnabled(t, admin)
    && (forall i :: 0 <= i < |p.chosen| ==> Attached(rules, t, admin, p.chosen[i]))
    && Kept(t.bindings, admin, p.liveIds) == t.bindings
    && Kept(t.keys, admin, p.liveIds) == t.keys
    && MismatchLinks(t.links, admin, p.mismatched) == {}
  }

  /** Fit survives when other sites disappear and rows change their state only. */
  lemma FitSurvives(rules: UrlRules, sites: map<nat, SiteRow>, sites': map<nat, SiteRow>, base: string, site: nat)
    requires IsFit(rules, sites, base, site) && site in sites'
    requires forall id :: id in sites' ==> id in sites && sites'[id].baseUrl == sites[id].baseUrl
    ensures IsFit(rules, sites', base, site)
  {
    forall j | j in sites'
      ensures Precedes(rules, sites', base, site, j)
    {
      assert Precedes(rules, sites, base, site, j);
    }
  }

  /** The import's own links are the ones the reconcile keeps. */
  lemma PreferredSurvives(t: Tables, admin: nat, p: Plan, preferred: map<nat, nat>, c: Candidate, m: nat, site: nat)
    requires m < |c.ids| && c.ids[m] in preferred && preferred[c.ids[m]] == site
    requires c.ids[m] in p.live && p.live[c.ids[m]] == LiveUrl(c, m) && LinkStays(p, c, m)
    requires LinkIs(t.links, LinkKey(site, admin, c.ids[m]), LinkUrl(c, m), LinkName(c, m))
    ensures var k := LinkKey(site, admin, c.ids[m]);
            LinkIs(Cleaned(t, admin, p, preferred).links, k, LinkUrl(c, m), LinkName(c, m))
  {
    var k := LinkKey(site, admin, c.ids[m]);
    assert Current(t.links, admin, p.live, k);
    assert Canonical(t.links, admin, p.live, preferred, k);
  }

  lemma SurvivesMatching(t: Tables, affected: set<nat>, delete: bool, admin: nat, p: Plan, c: Candidate, m: nat, site: nat)
    requires LinkStays(p, c, m) && m < |c.ids|
    requires LinkIs(t.links, LinkKey(site, admin, c.ids[m]), LinkUrl(c, m), LinkName(c, m))
    ensures LinkIs(Matched(Reconciled(t, affected, delete), admin, p.mismatched).links,
                   LinkKey(site, admin, c.ids[m]), LinkUrl(c, m), LinkName(c, m))
  {
  }

  lemma StagesKeepUrls(t: Tables, affected: set<nat>, delete: bool, admin: nat, urls: set<string>)
    ensures var t' := Matched(Reconciled(t, affected, delete), admin, urls);
            forall id :: id in t'.sites ==> id in t.sites && t'.sites[id].baseUrl == t.sites[id].baseUrl
  {
  }

  lemma AttachedAfterwards(rules: UrlRules, t: Tables, admin: nat, p: Plan, delete: bool, i: nat) returns (site: nat)
    requires Consistent(t) && PlanOk(rules, p) && i < |p.chosen|
    requires forall m :: 0 <= m < |p.chosen[i].ids| ==> LinkStays(p, p.chosen[i], m)
    ensures AttachedTo(rules, Synced(rules, t, admin, p, delete), admin, p.chosen[i], site)
    ensures PrefersAll(Preferred(rules, t, admin, p.chosen), p.chosen[i], site)
  {
    var c := p.chosen[i];
    site := ImportAllAttaches(rules, t, admin, p.chosen, i);
    SyncConsistent(rules, t, admin, p, delete);
    hide ImportedAll, Preferred;
    var t1, preferred := AfterImport(rules, t, admin, p), Preferred(rules, t, admin, p.chosen);
    var t2, affected := AfterCleanup(rules, t, admin, p), Affected(rules, t, admin, p);
    var t' := Synced(rules, t, admin, p, delete);
    forall m | 0 <= m < |c.ids|
      ensures LinkIs(t'.links, LinkKey(site, admin, c.ids[m]), LinkUrl(c, m), LinkName(c, m))
    {
      PreferredSurvives(t1, admin, p, preferred, c, m, site);
      SurvivesMatching(t2, affected, delete, admin, p, c, m, site);
    }
    StagesKeepUrls(t2, affected, delete, admin, p.mismatched);
    PlanCandidatesOk(rules, p);
    assert LinkIs(t'.links, LinkKey(site, admin, c.ids[0]), LinkUrl(c, 0), LinkName(c, 0));
    FitSurvives(rules, t1.sites, t'.sites, c.baseUrl, site);
  }

  lemma ReconciledEnables(t: Tables, affected: set<nat>, delete: bool, admin: nat, urls: set<string>)
    requires Consistent(t) && AdminSites(t.links, admin) <= affected
    ensures LinkedSitesEnabled(Matched(Reconciled(t, affected, delete), admin, urls), admin)
  {
    ReconciledConsistent(t, affected, delete);
    MatchedConsistent(Reconciled(t, affected, delete), admin, urls);
    var t' := Matched(Reconciled(t, affected, delete), admin, urls);
    forall k | k in t'.links && k.admin == admin
      ensures k.site in t'.sites && !t'.sites[k.site].autoDisabled
    {
      assert k in t.links && k.site in AdminSites(t.links, admin);
      assert HasLink(t.links, k.site);
    }
  }

  /** One run settles the tables, provided every imported link stays recognizable. */
  lemma SyncSettles(rules: UrlRules, t: Tables, admin: nat, p: Plan, delete: bool)
    requires Consistent(t) && PlanOk(rules, p) && AllStay(p)
    ensures Settled(rules, Synced(rules, t, admin, p, delete), admin, p)
  {
    SyncCleansUp(rules, t, admin, p, delete);
    var t' := Synced(rules, t, admin, p, delete);
    forall i | 0 <= i < |p.chosen|
      ensures Attached(rules, t', admin, p.chosen[i])
    {
      var site := AttachedAfterwards(rules, t, admin, p, delete, i);
    }
    SyncConsistent(rules, t, admin, p, delete);
    ReconciledEnables(AfterCleanup(rules, t, admin, p), Affected(rules, t, admin, p), delete, admin, p.mismatched);
    hide ImportedAll, Preferred;
    assert Kept(t'.bindings, admin, p.liveIds) == t'.bindings;
    assert Kept(t'.keys, admin, p.liveIds) == t'.keys;
  }

  lemma {:induction false} ImportAllFixed(rules: UrlRules, t: Tables, admin: nat, cs: seq<Candidate>)
    requires forall i :: 0 <= i < |cs| ==> Attached(rules, t, admin, cs[i])
    ensures ImportedAll(rules, t, admin, cs) == t.(nextLink := ImportedAll(rules, t, admin, cs).nextLink)
    ensures CreatedCount(rules, t, admin, cs) == 0
    decreases |cs|
  {
    if cs != [] {
      var prior, c := cs[..|cs| - 1], cs[|cs| - 1];
      ImportAllFixed(rules, t, admin, prior);
      assert Attached(rules, t, admin, cs[|cs| - 1]);
      var site :| AttachedTo(rules, t, admin, c, site);
      FitUnique(rules, t.sites, c.baseUrl, site);
      WithLinksFixed(t.links, ImportedAll(rules, t, admin, prior).nextLink, site, admin, c, |c.ids|);
    }
  }

  lemma SettledDropsNothing(t: Tables, admin: nat, p: Plan, preferred: map<nat, nat>)
    requires AllCurrent(t.links, admin, p.live) && OneLinkPerChannel(t.links, admin)
    requires Kept(t.bindings, admin, p.liveIds) == t.bindings && Kept(t.keys, admin, p.liveIds) == t.keys
    ensures DroppedLinks(t.links, admin, p.live, preferred) == {}
    ensures Cleaned(t, admin, p, preferred) == t
  {
    forall k | k in t.links && k.admin == admin
      ensures Canonical(t.links, admin, p.live, preferred, k)
    {
      assert Current(t.links, admin, p.live, k);
    }
    assert DroppedLinks(t.links, admin, p.live, preferred) == {};
    assert t.links - {} == t.links;
  }

  lemma SettledSitesStay(t: Tables, admin: nat, delete: bool)
    requires LinkedSitesEnabled(t, admin)
    ensures var affected := AdminSites(t.links, admin);
            && Reconciled(t, affected, delete) == t
            && TallyOf(t, affected, delete) == Tally(0, 0, 0)
  {
    var affected := AdminSites(t.links, admin);
    forall id | id in affected
      ensures HasLink(t.links, id) && id in t.sites && !t.sites[id].autoDisabled
    {
      var k :| k in t.links && k.admin == admin && k.site == id;
    }
    assert DeletedSites(t, affected) == {} && DisabledSites(t, affected) == {} && ReenabledSites(t, affected) == {};
    assert SitesAfter(t, affected, delete) == t.sites;
  }

  lemma SettledMatches(t: Tables, admin: nat, urls: set<string>)
    requires MismatchLinks(t.links, admin, urls) == {}
    ensures MismatchSites(t, admin, urls) == {} && Matched(t, admin, urls) == t
  {
    assert MismatchSites(t, admin, urls) == {};
    assert t.links - {} == t.links && t.sites - {} == t.sites;
  }

  /** A settled state is a fixed point of the sync, and the run reports that it did nothing. */
  lemma SettledIsFixed(rules: UrlRules, t: Tables, admin: nat, p: Plan, delete: bool)
    requires Settled(rules, t, admin, p)
    ensures Synced(rules, t, admin, p, delete) == t.(nextLink := Synced(rules, t, admin, p, delete).nextLink)
    ensures SyncReport(rules, t, admin, p, delete) == NOTHING_DONE
  {
    ImportAllFixed(rules, t, admin, p.chosen);
    hide ImportedAll, Preferred, CreatedCount;
    var t1, preferred := AfterImport(rules, t, admin, p), Preferred(rules, t, admin, p.chosen);
    SettledDropsNothing(t1, admin, p, preferred);
    assert AfterCleanup(rules, t, admin, p) == t1;
    assert Affected(rules, t, admin, p) == AdminSites(t1.links, admin);
    SettledSitesStay(t1, admin, delete);
    assert AfterReconcile(rules, t, admin, p, delete) == t1;
    SettledMatches(t1, admin, p.mismatched);
    assert t1.bindings - t1.bindings == {} && t1.keys - t1.keys == {};
  }

  /** If an imported link would not stay, every run drops it again. */
  lemma UnrecognizedLinkIsDropped(rules: UrlRules, t: Tables, admin: nat, p: Plan, delete: bool, i: nat, m: nat)
    requires Consistent(t) && PlanOk(rules, p) && i < |p.chosen| && m < |p.chosen[i].ids|
    requires !LinkStays(p, p.chosen[i], m)
    ensures SyncReport(rules, t, admin, p, delete) != NOTHING_DONE
  {
    var c := p.chosen[i];
    var site := ImportAllAttaches(rules, t, admin, p.chosen, i);
    hide ImportedAll, Preferred;
    var t1 := AfterImport(rules, t, admin, p);
    var preferred := Preferred(rules, t, admin, p.chosen);
    var k := LinkKey(site, admin, c.ids[m]);
    assert LinkIs(t1.links, k, LinkUrl(c, m), LinkName(c, m));
    if k !in DroppedLinks(t1.links, admin, p.live, preferred) {
      var t3 := AfterReconcile(rules, t, admin, p, delete);
      assert k in t3.links;
      assert k in MismatchLinks(t3.links, admin, p.mismatched);
    }
  }

  /** Idempotence: repeating a run with the same snapshot changes nothing and reports nothing, if
      and only if every imported link stays recognizable. */
  lemma SyncIdempotentIff(rules: UrlRules, t: Tables, admin: nat, p: Plan, delete: bool)
    requires Consistent(t) && PlanOk(rules, p)
    ensures var t' := Synced(rules, t, admin, p, delete);
            var t'' := Synced(rules, t', admin, p, delete);
            && (AllStay(p) ==> t'' == t'.(nextLink := t''.nextLink))
            && (AllStay(p) <==> SyncReport(rules, t', admin, p, delete) == NOTHING_DONE)
  {
    var t' := Synced(rules, t, admin, p, delete);
    SyncConsistent(rules, t, admin, p, delete);
    if AllStay(p) {
      SyncSettles(rules, t, admin, p, delete);
      SettledIsFixed(rules, t', admin, p, delete);
    } else {
      var i, m :| 0 <= i < |p.chosen| && 0 <= m < |p.chosen[i].ids| && !LinkStays(p, p.chosen[i], m);
      UnrecognizedLinkIsDropped(rules, t', admin, p, delete, i, m);
    }
  }
}
