/** The local tables a main-site sync rewrites, and each stage of the sync as a function on them. */
module SiteTables {
  import opened Options
  import opened Urls
  import opened Candidates

  datatype SiteRow = SiteRow(name: string, baseUrl: string, platform: string, enabled: bool, autoDisabled: bool)

  /** (site_id, admin_site_id, channel_id) is a unique key of `site_discovery_links`. */
  datatype LinkKey = LinkKey(site: nat, admin: nat, channel: nat)
  datatype LinkRow = LinkRow(id: nat, url: string, name: string)

  /** Row identity in `channel_upstream_bindings` and `admin_channel_keys`. */
  datatype ChannelKey = ChannelKey(admin: nat, channel: nat)

  datatype Tables = Tables(
    sites: map<nat, SiteRow>,
    links: map<LinkKey, LinkRow>,
    bindings: set<ChannelKey>,
    keys: set<ChannelKey>,
    nextSite: nat,
    nextLink: nat)

  /** Foreign keys and auto-increment ids. */
  ghost predicate Consistent(t: Tables) {
    && (forall id :: id in t.sites ==> 0 < id < t.nextSite)
    && 0 < t.nextSite
    && (forall k :: k in t.links ==> k.site in t.sites && t.links[k].id < t.nextLink)
    && (forall k, k' :: k in t.links && k' in t.links && t.links[k].id == t.links[k'].id ==> k == k')
  }

  ghost predicate HasLink(links: map<LinkKey, LinkRow>, site: nat) {
    exists k :: k in links && k.site == site
  }

  // ---------------------------------------------------------------------------------------
  // Import of one candidate: `_import_discovered_site_item`
  // ---------------------------------------------------------------------------------------

  /** How well an existing site fits: same URL, same URL up to trailing slashes, same merge key. */
  function Rank(rules: UrlRules, row: SiteRow, base: string): (r: nat)
    ensures r <= 3
  {
    if row.baseUrl == base then 0
    else if RStripSlash(row.baseUrl) == base then 1
    else if rules.mergeKey(base) != "" && rules.mergeKey(row.baseUrl) == rules.mergeKey(base) then 2
    else 3
  }

  predicate Precedes(rules: UrlRules, sites: map<nat, SiteRow>, base: string, i: nat, j: nat)
    requires i in sites && j in sites
  {
    var a, b := Rank(rules, sites[i], base), Rank(rules, sites[j], base);
    a < b || (a == b && i <= j)
  }

  /** The site a candidate is attached to: the best fit, oldest first. */
  ghost predicate IsFit(rules: UrlRules, sites: map<nat, SiteRow>, base: string, id: nat) {
    && id in sites && Rank(rules, sites[id], base) < 3
    && forall j :: j in sites ==> Precedes(rules, sites, base, id, j)
  }

  ghost function Fit(rules: UrlRules, sites: map<nat, SiteRow>, base: string): (r: Option<nat>)
    ensures r.Some? ==> IsFit(rules, sites, base, r.value)
    ensures r.None? ==> forall id :: !IsFit(rules, sites, base, id)
  {
    if exists id :: IsFit(rules, sites, base, id)
    then var id :| IsFit(rules, sites, base, id); Some(id)
    else None
  }

  lemma FitUnique(rules: UrlRules, sites: map<nat, SiteRow>, base: string, id: nat)
    requires IsFit(rules, sites, base, id)
    ensures Fit(rules, sites, base) == Some(id)
  {
    var j := Fit(rules, sites, base).value;
    assert Precedes(rules, sites, base, id, j) && Precedes(rules, sites, base, j, id);
  }

  lemma {:induction false} FitAmong(rules: UrlRules, sites: map<nat, SiteRow>, base: string, ids: set<nat>, first: nat)
    returns (best: nat)
    requires first in ids && ids <= sites.Keys
    ensures best in ids
    ensures forall j :: j in ids ==> Precedes(rules, sites, base, best, j)
    decreases |ids|
  {
    best := first;
    if next :| next in ids - {first} {
      var other := FitAmong(rules, sites, base, ids - {first}, next);
      best := if Precedes(rules, sites, base, first, other) then first else other;
      assert forall j :: j in ids ==> j == first || j in ids - {first};
    } else {
      assert forall j :: j in ids && j != first ==> j in ids - {first};
    }
  }

  lemma FitIfAny(rules: UrlRules, sites: map<nat, SiteRow>, base: string, id: nat)
    requires id in sites && Rank(rules, sites[id], base) < 3
    ensures Fit(rules, sites, base).Some?
  {
    var best := FitAmong(rules, sites, base, sites.Keys, id);
    assert Precedes(rules, sites, base, best, id);
    assert IsFit(rules, sites, base, best);
  }

  const URL_WIDTH := 512
  const NAME_WIDTH := 255

  function LinkUrl(c: Candidate, m: nat): string {
    var own := if m < |c.urls| then Strip(c.urls[m]) else "";
    Prefix(if own != "" then own else c.baseUrl, URL_WIDTH)
  }

  function LinkName(c: Candidate, m: nat): string {
    var own := if m < |c.names| then Strip(c.names[m]) else "";
    Prefix(if own != "" then own else c.name, NAME_WIDTH)
  }

  /** The link rows after the first `n` channels were upserted.  Every upsert draws an id from the
      auto-increment counter, also when it only updates a row. */
  function WithLinks(links: map<LinkKey, LinkRow>, next: nat, site: nat, admin: nat, c: Candidate, n: nat)
    : map<LinkKey, LinkRow>
    requires n <= |c.ids|
  {
    if n == 0 then links
    else
      var prior := WithLinks(links, next, site, admin, c, n - 1);
      var k := LinkKey(site, admin, c.ids[n - 1]);
      prior[k := LinkRow(if k in prior then prior[k].id else next + n - 1, LinkUrl(c, n - 1), LinkName(c, n - 1))]
  }

  function NewSite(c: Candidate): SiteRow {
    SiteRow(Prefix(c.name, NAME_WIDTH), c.baseUrl, "newapi", true, false)
  }

  ghost function SiteFor(rules: UrlRules, t: Tables, c: Candidate): nat {
    match Fit(rules, t.sites, c.baseUrl)
    case Some(id) => id
    case None => t.nextSite
  }

  ghost function WithSite(rules: UrlRules, t: Tables, c: Candidate): Tables {
    match Fit(rules, t.sites, c.baseUrl)
    case Some(_) => t
    case None => t.(sites := t.sites[t.nextSite := NewSite(c)], nextSite := t.nextSite + 1)
  }

  ghost function Imported(rules: UrlRules, t: Tables, admin: nat, c: Candidate): Tables {
    WithSite(rules, t, c)
      .(links := WithLinks(t.links, t.nextLink, SiteFor(rules, t, c), admin, c, |c.ids|),
        nextLink := t.nextLink + |c.ids|)
  }

  /** Candidates are imported one after the other. */
  ghost function ImportedAll(rules: UrlRules, t: Tables, admin: nat, cs: seq<Candidate>): Tables
    decreases |cs|
  {
    if cs == [] then t
    else Imported(rules, ImportedAll(rules, t, admin, cs[..|cs| - 1]), admin, cs[|cs| - 1])
  }

  /** Which site each imported channel was attached to. */
  ghost function Preferred(rules: UrlRules, t: Tables, admin: nat, cs: seq<Candidate>): map<nat, nat>
    decreases |cs|
  {
    if cs == [] then map[]
    else
      var prior, c := cs[..|cs| - 1], cs[|cs| - 1];
      var site := SiteFor(rules, ImportedAll(rules, t, admin, prior), c);
      Preferred(rules, t, admin, prior) + (map id | id in c.ids && id > 0 :: site)
  }

  ghost function CreatedCount(rules: UrlRules, t: Tables, admin: nat, cs: seq<Candidate>): nat
    decreases |cs|
  {
    if cs == [] then 0
    else
      var prior, c := cs[..|cs| - 1], cs[|cs| - 1];
      CreatedCount(rules, t, admin, prior)
      + if Fit(rules, ImportedAll(rules, t, admin, prior).sites, c.baseUrl).None? then 1 else 0
  }

  // ---------------------------------------------------------------------------------------
  // `_reconcile_site_discovery_links_in_connection`
  // ---------------------------------------------------------------------------------------

  predicate Stale(live: map<nat, string>, k: LinkKey, row: LinkRow) {
    k.channel !in live || (live[k.channel] != "" && Normalize(row.url) != live[k.channel])
  }

  predicate Current(links: map<LinkKey, LinkRow>, admin: nat, live: map<nat, string>, k: LinkKey) {
    k in links && k.admin == admin && !Stale(live, k, links[k])
  }

  /** The import of this run attached the channel to one of the sites competing for it. */
  ghost predicate PreferenceDecides(links: map<LinkKey, LinkRow>, admin: nat, live: map<nat, string>,
                                    preferred: map<nat, nat>, channel: nat) {
    channel in preferred && Current(links, admin, live, LinkKey(preferred[channel], admin, channel))
  }

  /** The one link a channel keeps: the one this run's import chose, else the oldest. */
  ghost predicate Canonical(links: map<LinkKey, LinkRow>, admin: nat, live: map<nat, string>,
                            preferred: map<nat, nat>, k: LinkKey) {
    && Current(links, admin, live, k)
    && if PreferenceDecides(links, admin, live, preferred, k.channel)
       then k.site == preferred[k.channel]
       else forall k' :: Current(links, admin, live, k') && k'.channel == k.channel ==> links[k].id <= links[k'].id
  }

  ghost function DroppedLinks(links: map<LinkKey, LinkRow>, admin: nat, live: map<nat, string>, preferred: map<nat, nat>)
    : set<LinkKey>
  {
    set k | k in links && k.admin == admin && !Canonical(links, admin, live, preferred, k)
  }

  function AdminSites(links: map<LinkKey, LinkRow>, admin: nat): set<nat> {
    set k | k in links && k.admin == admin :: k.site
  }

  // ---------------------------------------------------------------------------------------
  // Cached bindings and keys; local site state; platform mismatches
  // ---------------------------------------------------------------------------------------

  function Kept(rows: set<ChannelKey>, admin: nat, live: set<nat>): set<ChannelKey> {
    set b | b in rows && (b.admin != admin || b.channel in live)
  }

  function SiteAfter(row: SiteRow, linked: bool): SiteRow {
    if linked then
      if row.autoDisabled then row.(enabled := true, autoDisabled := false) else row
    else
      if row.enabled then row.(enabled := false, autoDisabled := true) else row
  }

  ghost function DeletedSites(t: Tables, affected: set<nat>): set<nat> {
    set id | id in affected && id in t.sites && !HasLink(t.links, id)
  }

  ghost function DisabledSites(t: Tables, affected: set<nat>): set<nat> {
    set id | id in affected && id in t.sites && !HasLink(t.links, id) && t.sites[id].enabled
  }

  ghost function ReenabledSites(t: Tables, affected: set<nat>): set<nat> {
    set id | id in affected && id in t.sites && HasLink(t.links, id) && t.sites[id].autoDisabled
  }

  datatype Tally = Tally(disabled: nat, reenabled: nat, deleted: nat)

  ghost function TallyOf(t: Tables, affected: set<nat>, delete: bool): Tally {
    Tally(if delete then 0 else |DisabledSites(t, affected)|,
          |ReenabledSites(t, affected)|,
          if delete then |DeletedSites(t, affected)| else 0)
  }

  /** `_apply_admin_site_channel_reconcile_in_connection` */
  ghost function SitesAfter(t: Tables, affected: set<nat>, delete: bool): map<nat, SiteRow> {
    map id | id in t.sites && !(delete && id in DeletedSites(t, affected)) ::
      if id in affected then SiteAfter(t.sites[id], HasLink(t.links, id)) else t.sites[id]
  }

  function NormalizedUrls(urls: set<string>): set<string> {
    set u | u in urls && Normalize(u) != "" :: Normalize(u)
  }

  function MismatchLinks(links: map<LinkKey, LinkRow>, admin: nat, urls: set<string>): set<LinkKey> {
    set k | k in links && k.admin == admin && Normalize(links[k].url) in NormalizedUrls(urls)
  }

  ghost function MismatchSites(t: Tables, admin: nat, urls: set<string>): set<nat> {
    var dropped := MismatchLinks(t.links, admin, urls);
    set k | k in dropped && k.site in t.sites && !HasLink(t.links - dropped, k.site) :: k.site
  }

  // ---------------------------------------------------------------------------------------
  // One sync
  // ---------------------------------------------------------------------------------------

  datatype Scope = AllChannels | Recognized | Selected(ids: set<nat>)

  /** What one run reads: the candidates of the snapshot, those it imports, the base URLs found to
      be no syncable platform, and the ids of the live channels. */
  datatype Plan = Plan(
    candidates: seq<Candidate>,
    chosen: seq<Candidate>,
    mismatched: set<string>,
    live: map<nat, string>,
    liveIds: set<nat>)

  predicate IsChosen(scope: Scope, syncable: string -> bool, c: Candidate) {
    match scope
    case AllChannels => true
    case Recognized => syncable(c.baseUrl)
    case Selected(ids) => (exists id :: id in c.ids && id in ids) && syncable(c.baseUrl)
  }

  function Choose(scope: Scope, syncable: string -> bool, cs: seq<Candidate>): seq<Candidate> {
    if cs == [] then []
    else Choose(scope, syncable, cs[..|cs| - 1])
         + (if IsChosen(scope, syncable, cs[|cs| - 1]) then [cs[|cs| - 1]] else [])
  }

  function MakePlan(rules: UrlRules, channels: seq<Channel>, scope: Scope, syncable: string -> bool): Plan {
    var cs := Aggregate(rules, channels);
    Plan(cs,
         Choose(scope, syncable, cs),
         if scope.Recognized? then set c | c in cs && !syncable(c.baseUrl) :: c.baseUrl else {},
         LiveUrls(cs),
         set ch | ch in channels && ch.id > 0 :: ch.id)
  }

  datatype Report = Report(
    imported: nat,
    removedLinks: nat,
    removedBindings: nat,
    removedKeys: nat,
    sites: Tally,
    platformRemovedLinks: nat,
    platformDeleted: nat)

  const NOTHING_DONE := Report(0, 0, 0, 0, Tally(0, 0, 0), 0, 0)

  /** After stale links, bindings and keys are gone. */
  ghost function Cleaned(t: Tables, admin: nat, p: Plan, preferred: map<nat, nat>): Tables {
    t.(links := t.links - DroppedLinks(t.links, admin, p.live, preferred),
       bindings := Kept(t.bindings, admin, p.liveIds),
       keys := Kept(t.keys, admin, p.liveIds))
  }

  ghost function Reconciled(t: Tables, affected: set<nat>, delete: bool): Tables {
    t.(sites := SitesAfter(t, affected, delete))
  }

  ghost function Matched(t: Tables, admin: nat, urls: set<string>): Tables {
    t.(links := t.links - MismatchLinks(t.links, admin, urls),
       sites := t.sites - MismatchSites(t, admin, urls))
  }

  ghost function AfterImport(rules: UrlRules, t: Tables, admin: nat, p: Plan): Tables {
    ImportedAll(rules, t, admin, p.chosen)
  }

  ghost function AfterCleanup(rules: UrlRules, t: Tables, admin: nat, p: Plan): Tables {
    Cleaned(AfterImport(rules, t, admin, p), admin, p, Preferred(rules, t, admin, p.chosen))
  }

  /** Sites whose state is reconsidered: those that had, or have, a link of this main site. */
  ghost function Affected(rules: UrlRules, t: Tables, admin: nat, p: Plan): set<nat> {
    AdminSites(AfterImport(rules, t, admin, p).links, admin) + AdminSites(AfterCleanup(rules, t, admin, p).links, admin)
  }

  ghost function AfterReconcile(rules: UrlRules, t: Tables, admin: nat, p: Plan, delete: bool): Tables {
    Reconciled(AfterCleanup(rules, t, admin, p), Affected(rules, t, admin, p), delete)
  }

  /** `_sync_admin_site_snapshot_in_connection` for a NewAPI main site. */
  ghost function Synced(rules: UrlRules, t: Tables, admin: nat, p: Plan, delete: bool): Tables {
    Matched(AfterReconcile(rules, t, admin, p, delete), admin, p.mismatched)
  }

  ghost function SyncReport(rules: UrlRules, t: Tables, admin: nat, p: Plan, delete: bool): Report {
    var t1 := AfterImport(rules, t, admin, p);
    var t2 := AfterCleanup(rules, t, admin, p);
    var affected := Affected(rules, t, admin, p);
    var t3 := AfterReconcile(rules, t, admin, p, delete);
    Report(CreatedCount(rules, t, admin, p.chosen),
           |DroppedLinks(t1.links, admin, p.live, Preferred(rules, t, admin, p.chosen))|,
           |t1.bindings - t2.bindings|,
           |t1.keys - t2.keys|,
           TallyOf(t2, affected, delete),
           |MismatchLinks(t3.links, admin, p.mismatched)|,
           |MismatchSites(t3, admin, p.mismatched)|)
  }
}
