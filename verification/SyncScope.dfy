/** What a sync with a given scope does: which candidates it imports, what it writes for them, and what
    becomes of the rows of all other channels. */
module SyncScope {
  import opened Options
  import opened Sets
  import opened Urls
  import opened Candidates
  import opened SiteTables
  import opened SyncTheorems
  import opened SyncSafety

  /** The user asked for this candidate: for everything, for whatever is on a platform that can be
      synchronized, or for one of its channels, if it is on such a platform. */
  ghost predicate Asked(scope: Scope, syncable: string -> bool, c: Candidate) {
    || scope.AllChannels?
    || (syncable(c.baseUrl) && (scope.Selected? ==> exists m :: 0 <= m < |c.ids| && c.ids[m] in scope.ids))
  }

  lemma {:induction false} ChosenIff(scope: Scope, syncable: string -> bool, cs: seq<Candidate>, c: Candidate)
    ensures c in Choose(scope, syncable, cs) <==> c in cs && Asked(scope, syncable, c)
    decreases |cs|
  {
    if cs != [] {
      ChosenIff(scope, syncable, cs[..|cs| - 1], c);
      assert cs == cs[..|cs| - 1] + [cs[|cs| - 1]];
    }
  }

  // ---------------------------------------------------------------------------------------
  // New sites
  // ---------------------------------------------------------------------------------------

  ghost predicate CreatedFor(row: SiteRow, c: Candidate) {
    row == SiteRow(Prefix(c.name, 255), c.baseUrl, "newapi", true, false)
  }

  lemma {:induction false} NewSiteHasCandidate(rules: UrlRules, t: Tables, admin: nat, cs: seq<Candidate>, id: nat)
    returns (i: nat)
    requires Consistent(t) && (forall j :: 0 <= j < |cs| ==> CandidateOk(rules, cs[j]))
    requires id in ImportedAll(rules, t, admin, cs).sites && id !in t.sites
    ensures i < |cs| && CreatedFor(ImportedAll(rules, t, admin, cs).sites[id], cs[i])
    decreases |cs|
  {
    var prior, c := cs[..|cs| - 1], cs[|cs| - 1];
    var t1 := ImportedAll(rules, t, admin, prior);
    ImportAllConsistent(rules, t, admin, prior);
    ImportAttaches(rules, t1, admin, c);
    i := |cs| - 1;
    if id in t1.sites {
      i := NewSiteHasCandidate(rules, t, admin, prior, id);
      assert cs[i] == prior[i];
    }
  }

  /** What the stages behind the import make of a site row: only its state changes. */
  lemma StagesKeepRow(rules: UrlRules, t: Tables, admin: nat, p: Plan, delete: bool, id: nat)
    requires Consistent(t) && PlanOk(rules, p) && id in Synced(rules, t, admin, p, delete).sites
    ensures var t1, t' := AfterImport(rules, t, admin, p), Synced(rules, t, admin, p, delete);
            && id in t1.sites
            && (|| t'.sites[id] == t1.sites[id]
                || (Reenabled(t1.sites[id], t'.sites[id]) && HasLink(t'.links, id))
                || (AutoDisabledNow(t1.sites[id], t'.sites[id]) && !HasLink(t'.links, id)))
  {
    SyncConsistent(rules, t, admin, p, delete);
    hide ImportedAll, Preferred;
    StagesOnSite(AfterCleanup(rules, t, admin, p), Affected(rules, t, admin, p), delete, admin, p.mismatched, id);
  }

  /** A site that a run creates belongs to a candidate the user asked for: it has the candidate's base
      URL and name, and is on as long as it has a link. */
  lemma NewSiteWasAsked(rules: UrlRules, t: Tables, admin: nat, channels: seq<Channel>, scope: Scope,
                        syncable: string -> bool, delete: bool, id: nat)
    returns (c: Candidate)
    requires Consistent(t) && NormalizedList(channels) && id !in t.sites
    requires id in Synced(rules, t, admin, MakePlan(rules, channels, scope, syncable), delete).sites
    ensures c in Aggregate(rules, channels) && Asked(scope, syncable, c)
    ensures var t' := Synced(rules, t, admin, MakePlan(rules, channels, scope, syncable), delete);
            && t'.sites[id].baseUrl == c.baseUrl && t'.sites[id].name == Prefix(c.name, 255)
            && t'.sites[id].platform == "newapi"
            && (HasLink(t'.links, id) ==> t'.sites[id].enabled && !t'.sites[id].autoDisabled)
  {
    var p := MakePlan(rules, channels, scope, syncable);
    MakePlanOk(rules, channels, scope, syncable);
    PlanCandidatesOk(rules, p);
    StagesKeepRow(rules, t, admin, p, delete, id);
    var i := NewSiteHasCandidate(rules, t, admin, p.chosen, id);
    c := p.chosen[i];
    ChosenIff(scope, syncable, p.candidates, c);
  }

  // ---------------------------------------------------------------------------------------
  // New and rewritten links
  // ---------------------------------------------------------------------------------------

  lemma StripAgain(s: string)
    ensures Strip(Strip(s)) == Strip(s)
  {
    StripTrims(s);
    StripFixedIff(Strip(s));
  }

  lemma {:induction false} SomethingIsLeft(s: string)
    requires s != "" && !IsSpace(s[0])
    ensures RStrip(s) != ""
  {
    if |s| > 1 && IsSpace(s[|s| - 1]) { SomethingIsLeft(s[..|s| - 1]); }
  }

  lemma NormalizedIsNotBlank(s: string)
    requires Normalize(s) != ""
    ensures Strip(Normalize(s)) != ""
  {
    StripTrims(s);
    var u, n := Strip(s), Normalize(s);
    SlashesOff(u);
    assert n == u[..|n|] && !IsSpace(n[0]);
    assert LStrip(n) == n;
    SomethingIsLeft(n);
  }

  /** What the links of a channel carry: the channel's own URL and name, or else its candidate's name. */
  ghost predicate Shows(rules: UrlRules, row: LinkRow, c: Candidate, ch: Channel) {
    && row.url == Prefix(Strip(rules.ChannelUrl(ch)), 512)
    && row.name == Prefix(if Strip(ch.name) != "" then Strip(ch.name) else c.name, 255)
  }

  lemma LinkShows(rules: UrlRules, c: Candidate, m: nat, ch: Channel, row: LinkRow)
    requires Carries(rules, c, m, ch) && row.url == LinkUrl(c, m) && row.name == LinkName(c, m)
    ensures Shows(rules, row, c, ch)
  {
    StripAgain(ch.name);
    NormalizedIsNotBlank(ch.baseUrl);
  }

  lemma ImportedRow(rules: UrlRules, t: Tables, admin: nat, p: Plan, k: LinkKey) returns (i: nat, m: nat)
    requires Consistent(t) && PlanOk(rules, p)
    requires var t1 := AfterImport(rules, t, admin, p);
             k in t1.links && k.admin == admin && !(k in t.links && t.links[k] == t1.links[k])
    ensures i < |p.chosen| && m < |p.chosen[i].ids| && p.chosen[i].ids[m] == k.channel
    ensures var t1, c := AfterImport(rules, t, admin, p), p.chosen[i];
            LinkIs(t1.links, k, LinkUrl(c, m), LinkName(c, m)) && IsFit(rules, t1.sites, c.baseUrl, k.site)
  {
    ImportAllFrame(rules, t, admin, p.chosen, k);
    PreferredKeys(rules, t, admin, p.chosen, k.channel);
    i :| 0 <= i < |p.chosen| && k.channel in p.chosen[i].ids;
    m :| 0 <= m < |p.chosen[i].ids| && p.chosen[i].ids[m] == k.channel;
    var site := ImportAllAttaches(rules, t, admin, p.chosen, i);
    hide ImportedAll, Preferred;
    assert k == LinkKey(site, admin, p.chosen[i].ids[m]);
  }

  lemma StagesKeepLinks(rules: UrlRules, t: Tables, admin: nat, p: Plan, delete: bool, k: LinkKey)
    requires k in Synced(rules, t, admin, p, delete).links
    ensures k in AfterImport(rules, t, admin, p).links
    ensures Synced(rules, t, admin, p, delete).links[k] == AfterImport(rules, t, admin, p).links[k]
  {
    hide ImportedAll, Preferred;
  }

  /** No link is written without a URL. */
  lemma WrittenLinkHasUrl(rules: UrlRules, t: Tables, admin: nat, p: Plan, delete: bool, k: LinkKey)
    requires Consistent(t) && PlanOk(rules, p)
    requires var t' := Synced(rules, t, admin, p, delete);
             k in t'.links && k.admin == admin && !(k in t.links && t.links[k] == t'.links[k])
    ensures Synced(rules, t, admin, p, delete).links[k].url != ""
  {
    StagesKeepLinks(rules, t, admin, p, delete, k);
    hide *;
    var i, m := ImportedRow(rules, t, admin, p, k);
    PlanCandidatesOk(rules, p);
    LinkHasUrl(rules, p.chosen[i], m);
    LinkIsUrl(AfterImport(rules, t, admin, p).links, k, LinkUrl(p.chosen[i], m), LinkName(p.chosen[i], m));
  }

  lemma LinkHasUrl(rules: UrlRules, c: Candidate, m: nat)
    requires CandidateOk(rules, c)
    ensures LinkUrl(c, m) != ""
  {
  }

  lemma LinkIsUrl(links: map<LinkKey, LinkRow>, k: LinkKey, url: string, name: string)
    requires LinkIs(links, k, url, name)
    ensures k in links && links[k].url == url
  {
  }

  lemma StagesKeepFit(rules: UrlRules, t: Tables, admin: nat, p: Plan, delete: bool, base: string, site: nat)
    requires Consistent(t) && PlanOk(rules, p)
    requires IsFit(rules, AfterImport(rules, t, admin, p).sites, base, site)
    requires site in Synced(rules, t, admin, p, delete).sites
    ensures IsFit(rules, Synced(rules, t, admin, p, delete).sites, base, site)
  {
    var t1, t' := AfterImport(rules, t, admin, p), Synced(rules, t, admin, p, delete);
    forall id | id in t'.sites ensures id in t1.sites && t'.sites[id].baseUrl == t1.sites[id].baseUrl {
      StagesKeepRow(rules, t, admin, p, delete, id);
    }
    FitSurvives(rules, t1.sites, t'.sites, base, site);
  }

  /** A link of this main site that a run adds or rewrites belongs to a candidate the user asked for,
      leads to the best fitting site, and carries the channel's own URL and name. */
  lemma NewLinkWasAsked(rules: UrlRules, t: Tables, admin: nat, channels: seq<Channel>, scope: Scope,
                        syncable: string -> bool, delete: bool, k: LinkKey)
    returns (c: Candidate, n: nat)
    requires Consistent(t) && NormalizedList(channels) && k.admin == admin
    requires var t' := Synced(rules, t, admin, MakePlan(rules, channels, scope, syncable), delete);
             k in t'.links && !(k in t.links && t.links[k] == t'.links[k])
    ensures c in Aggregate(rules, channels) && Asked(scope, syncable, c)
    ensures n < |channels| && channels[n].id == k.channel && rules.Usable(channels[n]) && k.channel in c.ids
    ensures var t' := Synced(rules, t, admin, MakePlan(rules, channels, scope, syncable), delete);
            Shows(rules, t'.links[k], c, channels[n]) && IsFit(rules, t'.sites, c.baseUrl, k.site)
  {
    var p := MakePlan(rules, channels, scope, syncable);
    MakePlanOk(rules, channels, scope, syncable);
    StagesKeepLinks(rules, t, admin, p, delete, k);
    SyncConsistent(rules, t, admin, p, delete);
    hide Synced;
    var i, m := ImportedRow(rules, t, admin, p, k);
    c := p.chosen[i];
    assert c.ids[m] in c.ids;
    ChosenIff(scope, syncable, p.candidates, c);
    AggregatePartitions(rules, channels);
    n := SourceOf(rules, channels, c, m);
    LinkShows(rules, c, m, channels[n], Synced(rules, t, admin, p, delete).links[k]);
    StagesKeepFit(rules, t, admin, p, delete, c.baseUrl, k.site);
  }

  lemma SourceOf(rules: UrlRules, channels: seq<Channel>, c: Candidate, m: nat) returns (n: nat)
    requires GroupsOf(rules, Aggregate(rules, channels), channels) && c in Aggregate(rules, channels) && m < |c.ids|
    ensures n < |channels| && Carries(rules, c, m, channels[n])
  {
    var cs := Aggregate(rules, channels);
    var i :| 0 <= i < |cs| && cs[i] == c;
    assert GroupOk(rules, cs[i], channels);
    assert Sourced(rules, c, m, channels);
    n :| 0 <= n < |channels| && Carries(rules, c, m, channels[n]);
  }

  /** The base URLs of the candidates that a sync of what is recognized finds to be something else. */
  ghost predicate Excluded(rules: UrlRules, channels: seq<Channel>, scope: Scope, syncable: string -> bool,
                           url: string) {
    scope.Recognized? && url != "" &&
    exists i :: 0 <= i < |Aggregate(rules, channels)| && !syncable(Aggregate(rules, channels)[i].baseUrl)
      && Normalize(Aggregate(rules, channels)[i].baseUrl) == url
  }

  lemma ExcludedIff(rules: UrlRules, channels: seq<Channel>, scope: Scope, syncable: string -> bool, url: string)
    ensures url in NormalizedUrls(MakePlan(rules, channels, scope, syncable).mismatched) <==>
      Excluded(rules, channels, scope, syncable, url)
  {
    hide Aggregate, Choose, LiveUrls, Normalize;
    var cs, p := Aggregate(rules, channels), MakePlan(rules, channels, scope, syncable);
    if Excluded(rules, channels, scope, syncable, url) {
      var i :| 0 <= i < |cs| && !syncable(cs[i].baseUrl) && Normalize(cs[i].baseUrl) == url;
      assert cs[i] in cs && cs[i].baseUrl in p.mismatched;
    }
    if url in NormalizedUrls(p.mismatched) {
      var u :| u in p.mismatched && Normalize(u) == url && url != "";
      var c :| c in cs && !syncable(c.baseUrl) && c.baseUrl == u;
      var i :| 0 <= i < |cs| && cs[i] == c;
    }
  }

  /** The stripped URLs of all its channels fit the column, and none is that of an excluded site. */
  ghost predicate Recognizable(rules: UrlRules, channels: seq<Channel>, scope: Scope, syncable: string -> bool,
                               c: Candidate) {
    forall m :: 0 <= m < |c.ids| ==>
      && m < |c.urls| && Normalize(c.urls[m]) != "" && FitsWidth(Strip(c.urls[m]), 512)
      && !Excluded(rules, channels, scope, syncable, LiveUrl(c, m))
  }

  /** Conversely, every candidate the user asked for ends attached to its best fitting site, with a link
      for each of its channels, if its links are recognizable. */
  lemma AskedIsAttached(rules: UrlRules, t: Tables, admin: nat, channels: seq<Channel>, scope: Scope,
                        syncable: string -> bool, delete: bool, c: Candidate)
    returns (site: nat)
    requires Consistent(t) && NormalizedList(channels)
    requires c in Aggregate(rules, channels) && Asked(scope, syncable, c)
    requires Recognizable(rules, channels, scope, syncable, c)
    ensures var t' := Synced(rules, t, admin, MakePlan(rules, channels, scope, syncable), delete);
            && IsFit(rules, t'.sites, c.baseUrl, site)
            && forall m :: 0 <= m < |c.ids| ==> LinkKey(site, admin, c.ids[m]) in t'.links
  {
    var p := MakePlan(rules, channels, scope, syncable);
    MakePlanOk(rules, channels, scope, syncable);
    ChosenIff(scope, syncable, p.candidates, c);
    var i :| 0 <= i < |p.chosen| && p.chosen[i] == c;
    forall m | 0 <= m < |c.ids| ensures LinkStays(p, c, m) {
      ExcludedIff(rules, channels, scope, syncable, LiveUrl(c, m));
      LinkStaysIff(p, c, m);
    }
    hide MakePlan;
    site := AttachedAfterwards(rules, t, admin, p, delete, i);
    hide Synced;
    assert forall m :: 0 <= m < |c.ids| ==>
      LinkIs(Synced(rules, t, admin, p, delete).links, LinkKey(site, admin, c.ids[m]), LinkUrl(c, m), LinkName(c, m));
  }

  // ---------------------------------------------------------------------------------------
  // The links of channels nobody asked for
  // ---------------------------------------------------------------------------------------

  /** The link is its channel's own: at the channel's live URL. */
  predicate AtUrl(links: map<LinkKey, LinkRow>, k: LinkKey, url: string) {
    k in links && (url != "" ==> Normalize(links[k].url) == url)
  }

  /** No other link of the channel that is its own is older. */
  ghost predicate OldestOwn(links: map<LinkKey, LinkRow>, k: LinkKey, url: string) {
    && AtUrl(links, k, url)
    && forall site :: AtUrl(links, LinkKey(site, k.admin, k.channel), url) ==>
         links[k].id <= links[LinkKey(site, k.admin, k.channel)].id
  }

  lemma SameCandidate(rules: UrlRules, cs: seq<Candidate>, i: nat, j: nat, id: nat)
    requires WellFormed(rules, cs) && i < |cs| && j < |cs| && id in cs[i].ids && id in cs[j].ids
    ensures i == j
  {
    assert i < j ==> Disjoint(cs[i].ids, cs[j].ids);
    assert j < i ==> Disjoint(cs[j].ids, cs[i].ids);
  }

  lemma PreferredWasAsked(rules: UrlRules, t: Tables, admin: nat, channels: seq<Channel>, scope: Scope,
                          syncable: string -> bool, id: nat)
    returns (l: nat)
    requires id in Preferred(rules, t, admin, MakePlan(rules, channels, scope, syncable).chosen)
    ensures var cs := Aggregate(rules, channels); l < |cs| && id in cs[l].ids && Asked(scope, syncable, cs[l])
  {
    var p := MakePlan(rules, channels, scope, syncable);
    hide Aggregate, Choose, LiveUrls, Asked;
    PreferredKeys(rules, t, admin, p.chosen, id);
    var j :| 0 <= j < |p.chosen| && id in p.chosen[j].ids;
    ChosenIff(scope, syncable, p.candidates, p.chosen[j]);
    l :| 0 <= l < |p.candidates| && p.candidates[l] == p.chosen[j];
  }

  lemma UnaskedNotPreferred(rules: UrlRules, t: Tables, admin: nat, channels: seq<Channel>, scope: Scope,
                            syncable: string -> bool, c: Candidate, m: nat)
    requires NormalizedList(channels) && c in Aggregate(rules, channels) && !Asked(scope, syncable, c) && m < |c.ids|
    ensures c.ids[m] !in Preferred(rules, t, admin, MakePlan(rules, channels, scope, syncable).chosen)
  {
    AggregatePartitions(rules, channels);
    hide Aggregate, MakePlan, WellFormed, Asked, GroupsOf, Preferred;
    if c.ids[m] in Preferred(rules, t, admin, MakePlan(rules, channels, scope, syncable).chosen) {
      var l := PreferredWasAsked(rules, t, admin, channels, scope, syncable, c.ids[m]);
      var i :| 0 <= i < |Aggregate(rules, channels)| && Aggregate(rules, channels)[i] == c;
      SameCandidate(rules, Aggregate(rules, channels), i, l, c.ids[m]);
    }
  }

  lemma UnaskedAfterImport(rules: UrlRules, t: Tables, admin: nat, p: Plan, k: LinkKey)
    requires Consistent(t) && PlanOk(rules, p) && k.channel !in Preferred(rules, t, admin, p.chosen)
    ensures var t1 := AfterImport(rules, t, admin, p);
            (k in t1.links <==> k in t.links) && (k in t.links ==> t1.links[k] == t.links[k])
  {
    PlanCandidatesOk(rules, p);
    ImportAllConsistent(rules, t, admin, p.chosen);
    if k in AfterImport(rules, t, admin, p).links {
      ImportAllFrame(rules, t, admin, p.chosen, k);
    }
  }

  lemma UnaskedCanonicalIff(t: Tables, t1: Tables, admin: nat, live: map<nat, string>, preferred: map<nat, nat>,
                            k: LinkKey)
    requires k.admin == admin && k.channel !in preferred && k.channel in live
    requires forall site :: var j := LinkKey(site, admin, k.channel);
               (j in t1.links <==> j in t.links) && (j in t.links ==> t1.links[j] == t.links[j])
    ensures Canonical(t1.links, admin, live, preferred, k) <==> OldestOwn(t.links, k, live[k.channel])
  {
    assert forall site :: Current(t1.links, admin, live, LinkKey(site, admin, k.channel)) <==>
      AtUrl(t.links, LinkKey(site, admin, k.channel), live[k.channel]);
    assert k == LinkKey(k.site, admin, k.channel);
    if OldestOwn(t.links, k, live[k.channel]) {
      forall k' | Current(t1.links, admin, live, k') && k'.channel == k.channel
        ensures t1.links[k].id <= t1.links[k'].id
      {
        assert k' == LinkKey(k'.site, admin, k.channel);
      }
    }
  }

  /** A channel of the snapshot nobody asked for gets no link.  Of those it has, exactly the oldest that is
      its own stays, as it is, unless it leads to an excluded site. */
  lemma UnaskedLinkStaysIff(rules: UrlRules, t: Tables, admin: nat, channels: seq<Channel>, scope: Scope,
                            syncable: string -> bool, delete: bool, c: Candidate, m: nat, k: LinkKey)
    requires Consistent(t) && NormalizedList(channels)
    requires c in Aggregate(rules, channels) && !Asked(scope, syncable, c) && m < |c.ids|
    requires k.admin == admin && k.channel == c.ids[m]
    ensures var t' := Synced(rules, t, admin, MakePlan(rules, channels, scope, syncable), delete);
            && (k in t'.links <==>
                  OldestOwn(t.links, k, LiveUrl(c, m))
                  && !Excluded(rules, channels, scope, syncable, Normalize(t.links[k].url)))
            && (k in t'.links ==> t'.links[k] == t.links[k])
  {
    var p := MakePlan(rules, channels, scope, syncable);
    MakePlanOk(rules, channels, scope, syncable);
    UnaskedNotPreferred(rules, t, admin, channels, scope, syncable, c, m);
    AggregatePartitions(rules, channels);
    var i :| 0 <= i < |p.candidates| && p.candidates[i] == c;
    LiveUrlsLookup(rules, p.candidates, i, m);
    var t1, preferred := AfterImport(rules, t, admin, p), Preferred(rules, t, admin, p.chosen);
    forall site ensures var j := LinkKey(site, admin, k.channel);
               (j in t1.links <==> j in t.links) && (j in t.links ==> t1.links[j] == t.links[j])
    {
      UnaskedAfterImport(rules, t, admin, p, LinkKey(site, admin, k.channel));
    }
    assert k == LinkKey(k.site, admin, k.channel);
    UnaskedCanonicalIff(t, t1, admin, p.live, preferred, k);
    if k in t.links { ExcludedIff(rules, channels, scope, syncable, Normalize(t.links[k].url)); }
    hide ImportedAll, Preferred, MakePlan, Canonical, OldestOwn, Excluded;
    KeptLinkIff(rules, t, admin, p, delete, k);
  }

  lemma KeptLinkIff(rules: UrlRules, t: Tables, admin: nat, p: Plan, delete: bool, k: LinkKey)
    requires k.admin == admin
    ensures var t1, t' := AfterImport(rules, t, admin, p), Synced(rules, t, admin, p, delete);
            && (k in t'.links <==>
                  Canonical(t1.links, admin, p.live, Preferred(rules, t, admin, p.chosen), k)
                  && Normalize(t1.links[k].url) !in NormalizedUrls(p.mismatched))
            && (k in t'.links ==> t'.links[k] == t1.links[k])
  {
    hide ImportedAll, Preferred, PreferenceDecides;
  }

  /** After a sync of what is recognized, no link of this main site leads to an excluded site. */
  lemma ExcludedAreGone(rules: UrlRules, t: Tables, admin: nat, channels: seq<Channel>, scope: Scope,
                        syncable: string -> bool, delete: bool, k: LinkKey)
    requires k.admin == admin
    requires k in Synced(rules, t, admin, MakePlan(rules, channels, scope, syncable), delete).links
    ensures var t' := Synced(rules, t, admin, MakePlan(rules, channels, scope, syncable), delete);
            !Excluded(rules, channels, scope, syncable, Normalize(t'.links[k].url))
  {
    var p := MakePlan(rules, channels, scope, syncable);
    hide MakePlan;
    KeptLinkIff(rules, t, admin, p, delete, k);
    ExcludedIff(rules, channels, scope, syncable, Normalize(Synced(rules, t, admin, p, delete).links[k].url));
  }

  // ---------------------------------------------------------------------------------------
  // Channels that vanished
  // ---------------------------------------------------------------------------------------

  ghost predicate InList(channels: seq<Channel>, id: nat) {
    exists n :: 0 <= n < |channels| && channels[n].id == id
  }

  /** The bindings and keys of this main site's channels stay exactly if the channel is still listed,
      whatever the scope, and its links go if it is not listed or has no usable URL any more. */
  lemma ListedChannelsKeepData(rules: UrlRules, t: Tables, admin: nat, channels: seq<Channel>, scope: Scope,
                               syncable: string -> bool, delete: bool)
    requires Consistent(t) && NormalizedList(channels)
    ensures var t' := Synced(rules, t, admin, MakePlan(rules, channels, scope, syncable), delete);
            && (forall b :: b in t'.bindings <==> b in t.bindings && (b.admin != admin || InList(channels, b.channel)))
            && (forall b :: b in t'.keys <==> b in t.keys && (b.admin != admin || InList(channels, b.channel)))
            && (forall k :: k in t'.links && k.admin == admin ==>
                  exists n :: 0 <= n < |channels| && rules.Usable(channels[n]) && channels[n].id == k.channel)
  {
    var p := MakePlan(rules, channels, scope, syncable);
    MakePlanOk(rules, channels, scope, syncable);
    PlanCandidatesOk(rules, p);
    ImportAllConsistent(rules, t, admin, p.chosen);
    SyncCleansUp(rules, t, admin, p, delete);
    forall id: nat ensures id in p.liveIds <==> InList(channels, id) {
      LiveIdIff(rules, channels, scope, syncable, id);
    }
    var t' := Synced(rules, t, admin, p, delete);
    hide ImportedAll, Preferred, MakePlan;
    forall k | k in t'.links && k.admin == admin
      ensures exists n :: 0 <= n < |channels| && rules.Usable(channels[n]) && channels[n].id == k.channel
    {
      LinkedIsUsable(rules, channels, scope, syncable, k.channel);
    }
  }

  lemma LiveIdIff(rules: UrlRules, channels: seq<Channel>, scope: Scope, syncable: string -> bool, id: nat)
    requires NormalizedList(channels)
    ensures id in MakePlan(rules, channels, scope, syncable).liveIds <==> InList(channels, id)
  {
    if InList(channels, id) {
      var n :| 0 <= n < |channels| && channels[n].id == id;
      assert channels[n] in channels;
    }
  }

  lemma LinkedIsUsable(rules: UrlRules, channels: seq<Channel>, scope: Scope, syncable: string -> bool, id: nat)
    requires NormalizedList(channels) && id in MakePlan(rules, channels, scope, syncable).live
    ensures exists n :: 0 <= n < |channels| && rules.Usable(channels[n]) && channels[n].id == id
  {
    LiveChannelIsUsable(rules, channels, id);
  }

  // ---------------------------------------------------------------------------------------
  // The report
  // ---------------------------------------------------------------------------------------

  lemma {:induction false} CreatedAreCounted(rules: UrlRules, t: Tables, admin: nat, cs: seq<Candidate>)
    requires Consistent(t) && forall j :: 0 <= j < |cs| ==> CandidateOk(rules, cs[j])
    ensures var t1 := ImportedAll(rules, t, admin, cs);
            |t1.sites| == |t.sites| + CreatedCount(rules, t, admin, cs)
    decreases |cs|
  {
    if cs != [] {
      var prior := cs[..|cs| - 1];
      CreatedAreCounted(rules, t, admin, prior);
      ImportAllConsistent(rules, t, admin, prior);
      var t1 := ImportedAll(rules, t, admin, prior);
      assert t1.nextSite !in t1.sites;
    }
  }

  lemma MapMinus<K, V>(m: map<K, V>, s: set<K>)
    requires s <= m.Keys
    ensures |m - s| == |m| - |s|
  {
    assert (m - s).Keys == m.Keys - s;
    assert |(m - s).Keys| == |m.Keys| - |s|;
    assert |m| == |m.Keys| && |m - s| == |(m - s).Keys|;
  }

  lemma SetMinus<T>(a: set<T>, b: set<T>)
    requires b <= a
    ensures |a - b| == |a| - |b|
  {
  }

  lemma ReconciledCount(t: Tables, affected: set<nat>, delete: bool)
    ensures |SitesAfter(t, affected, delete)| + TallyOf(t, affected, delete).deleted == |t.sites|
  {
    var gone := if delete then DeletedSites(t, affected) else {};
    assert SitesAfter(t, affected, delete).Keys == t.sites.Keys - gone;
    SetMinus(t.sites.Keys, gone);
    assert |SitesAfter(t, affected, delete)| == |SitesAfter(t, affected, delete).Keys|;
    assert |t.sites| == |t.sites.Keys|;
  }

  lemma MatchedCount(t: Tables, admin: nat, urls: set<string>)
    ensures |Matched(t, admin, urls).sites| == |t.sites| - |MismatchSites(t, admin, urls)|
    ensures |Matched(t, admin, urls).links| == |t.links| - |MismatchLinks(t.links, admin, urls)|
  {
    MapMinus(t.sites, MismatchSites(t, admin, urls));
    MapMinus(t.links, MismatchLinks(t.links, admin, urls));
  }

  /** The report accounts for every row: sites created and deleted, links and cached rows removed. */
  lemma ReportCounts(rules: UrlRules, t: Tables, admin: nat, p: Plan, delete: bool)
    requires Consistent(t) && PlanOk(rules, p)
    ensures var t1, t', r := AfterImport(rules, t, admin, p), Synced(rules, t, admin, p, delete),
                             SyncReport(rules, t, admin, p, delete);
            && |t'.sites| + r.sites.deleted + r.platformDeleted == |t.sites| + r.imported
            && |t'.links| + r.removedLinks + r.platformRemovedLinks == |t1.links|
            && |t'.bindings| + r.removedBindings == |t.bindings|
            && |t'.keys| + r.removedKeys == |t.keys|
  {
    PlanCandidatesOk(rules, p);
    ImportAllConsistent(rules, t, admin, p.chosen);
    CreatedAreCounted(rules, t, admin, p.chosen);
    hide ImportedAll, Preferred, CreatedCount;
    var t1, t2 := AfterImport(rules, t, admin, p), AfterCleanup(rules, t, admin, p);
    MapMinus(t1.links, DroppedLinks(t1.links, admin, p.live, Preferred(rules, t, admin, p.chosen)));
    SetMinus(t1.bindings, t2.bindings);
    SetMinus(t1.keys, t2.keys);
    ReconciledCount(t2, Affected(rules, t, admin, p), delete);
    MatchedCount(AfterReconcile(rules, t, admin, p, delete), admin, p.mismatched);
  }

  /** Where nothing is excluded, the other two numbers are those of the sites the run switched. */
  lemma ReportCountsSwitches(rules: UrlRules, t: Tables, admin: nat, p: Plan, delete: bool)
    requires p.mismatched == {}
    ensures var t1, t', r := AfterImport(rules, t, admin, p), Synced(rules, t, admin, p, delete),
                             SyncReport(rules, t, admin, p, delete);
            && r.sites.disabled ==
                 |set id | id in t'.sites && id in t1.sites && AutoDisabledNow(t1.sites[id], t'.sites[id])|
            && r.sites.reenabled ==
                 |set id | id in t'.sites && id in t1.sites && Reenabled(t1.sites[id], t'.sites[id])|
  {
    hide ImportedAll, Preferred;
    var t1, t2 := AfterImport(rules, t, admin, p), AfterCleanup(rules, t, admin, p);
    var affected, t' := Affected(rules, t, admin, p), Synced(rules, t, admin, p, delete);
    NothingMatched(AfterReconcile(rules, t, admin, p, delete), admin);
    hide SitesAfter, Affected, MismatchSites;
    assert t'.sites == SitesAfter(t2, affected, delete) && t2.sites == t1.sites;
    SwitchedAre(t2, affected, delete);
  }

  lemma NothingMatched(t: Tables, admin: nat)
    ensures Matched(t, admin, {}).sites == t.sites
  {
    assert MismatchSites(t, admin, {}) == {};
    assert t.sites - {} == t.sites;
  }

  lemma SwitchedAre(t: Tables, affected: set<nat>, delete: bool)
    ensures var after := SitesAfter(t, affected, delete);
            && (set id | id in after && id in t.sites && AutoDisabledNow(t.sites[id], after[id]))
                 == (if delete then {} else DisabledSites(t, affected))
            && (set id | id in after && id in t.sites && Reenabled(t.sites[id], after[id])) == ReenabledSites(t, affected)
  {
  }

  // ---------------------------------------------------------------------------------------
  // The best fitting site
  // ---------------------------------------------------------------------------------------

  function SameUrl(sites: map<nat, SiteRow>, base: string): set<nat> {
    set id | id in sites && sites[id].baseUrl == base
  }

  function SameUpToSlashes(sites: map<nat, SiteRow>, base: string): set<nat> {
    set id | id in sites && RStripSlash(sites[id].baseUrl) == base
  }

  function SameDomain(rules: UrlRules, sites: map<nat, SiteRow>, base: string): set<nat> {
    set id | id in sites && rules.mergeKey(base) != "" && rules.mergeKey(sites[id].baseUrl) == rules.mergeKey(base)
  }

  ghost predicate Oldest(ids: set<nat>, id: nat) {
    id in ids && forall j :: j in ids ==> id <= j
  }

  /** Of the sites with this very URL the oldest; if there are none, of those with this URL but for
      slashes at the end the oldest; if there are none either, of those of the same domain the oldest. */
  lemma FitMeans(rules: UrlRules, sites: map<nat, SiteRow>, base: string, id: nat)
    ensures IsFit(rules, sites, base, id) <==>
      Oldest(if SameUrl(sites, base) != {} then SameUrl(sites, base)
             else if SameUpToSlashes(sites, base) != {} then SameUpToSlashes(sites, base)
             else SameDomain(rules, sites, base), id)
  {
    forall i | i in sites ensures RankIs(rules, sites, base, i) {}
    hide Rank, IsFit, SameUrl, SameUpToSlashes, SameDomain;
    if SameUrl(sites, base) != {} {
      var j :| j in SameUrl(sites, base);
      FitAtRank(rules, sites, base, id, j);
    } else if SameUpToSlashes(sites, base) != {} {
      var j :| j in SameUpToSlashes(sites, base);
      FitAtRank(rules, sites, base, id, j);
    } else if SameDomain(rules, sites, base) != {} {
      var j :| j in SameDomain(rules, sites, base);
      FitAtRank(rules, sites, base, id, j);
    } else {
      NoFit(rules, sites, base, id);
    }
  }

  lemma NoFit(rules: UrlRules, sites: map<nat, SiteRow>, base: string, id: nat)
    requires forall i :: i in sites ==> Rank(rules, sites[i], base) == 3
    ensures !IsFit(rules, sites, base, id)
  {
  }

  predicate RankIs(rules: UrlRules, sites: map<nat, SiteRow>, base: string, id: nat)
    requires id in sites
  {
    Rank(rules, sites[id], base)
      == if id in SameUrl(sites, base) then 0
         else if id in SameUpToSlashes(sites, base) then 1
         else if id in SameDomain(rules, sites, base) then 2
         else 3
  }

  /** If `j` has the best rank there is, the fit is the oldest of that rank. */
  lemma FitAtRank(rules: UrlRules, sites: map<nat, SiteRow>, base: string, id: nat, j: nat)
    requires j in sites && Rank(rules, sites[j], base) < 3
    requires forall i :: i in sites ==> Rank(rules, sites[j], base) <= Rank(rules, sites[i], base)
    ensures IsFit(rules, sites, base, id) <==>
      && id in sites && Rank(rules, sites[id], base) == Rank(rules, sites[j], base)
      && forall i :: i in sites && Rank(rules, sites[i], base) == Rank(rules, sites[j], base) ==> id <= i
  {
    hide Rank;
    if IsFit(rules, sites, base, id) {
      assert Precedes(rules, sites, base, id, j);
      forall i | i in sites && Rank(rules, sites[i], base) == Rank(rules, sites[j], base) ensures id <= i {
        assert Precedes(rules, sites, base, id, i);
      }
    }
  }
}
