/** The sync as the program performs it: row by row on the tables, inside one transaction. */
module MonitorStore {

  import opened Options
  import opened Sets
  import opened Urls
  import opened Candidates
  import opened SiteTables
  import opened SyncTheorems

  class Database {
    var sites: map<nat, SiteRow>
    var links: map<LinkKey, LinkRow>
    var bindings: set<ChannelKey>
    var keys: set<ChannelKey>
    var nextSite: nat
    var nextLink: nat

    constructor ()
      ensures Snapshot() == Tables(map[], map[], {}, {}, 1, 1)
    {
      sites, links, bindings, keys, nextSite, nextLink := map[], map[], {}, {}, 1, 1;
    }

    function Snapshot(): Tables
      reads this
    {
      Tables(sites, links, bindings, keys, nextSite, nextLink)
    }

    /** The SELECTs that look for an existing site: by URL, by URL without trailing slashes, then by
        merge key over all rows in id order. */
    method FindSite(rules: UrlRules, base: string) returns (found: Option<nat>)
      ensures found == Fit(rules, sites, base)
    {
      found := None;
      var todo := sites.Keys;
      while todo != {}
        invariant todo <= sites.Keys
        invariant found.Some? ==> found.value in sites && Rank(rules, sites[found.value], base) < 3
        invariant forall j :: j in sites && j !in todo ==>
                    if found.None? then Rank(rules, sites[j], base) == 3
                    else Precedes(rules, sites, base, found.value, j)
        decreases |todo|
      {
        var id :| id in todo;
        todo := todo - {id};
        if Rank(rules, sites[id], base) < 3 && (found.None? || Precedes(rules, sites, base, id, found.value)) {
          found := Some(id);
        }
      }
      if found.Some? {
        assert IsFit(rules, sites, base, found.value);
        FitUnique(rules, sites, base, found.value);
      }
    }

    /** `_import_discovered_site_item` */
    method ImportCandidate(rules: UrlRules, admin: nat, c: Candidate) returns (site: nat, created: bool)
      modifies this
      ensures Snapshot() == Imported(rules, old(Snapshot()), admin, c)
      ensures site == SiteFor(rules, old(Snapshot()), c)
      ensures created == Fit(rules, old(sites), c.baseUrl).None?
    {
      var found := FindSite(rules, c.baseUrl);
      created := found.None?;
      if created {
        site := nextSite;
        sites := sites[nextSite := NewSite(c)];
        nextSite := nextSite + 1;
      } else {
        site := found.value;
      }
      UpsertLinks(site, admin, c);
    }

    /** One `INSERT ... ON DUPLICATE KEY UPDATE` per channel of the candidate. */
    method UpsertLinks(site: nat, admin: nat, c: Candidate)
      modifies this`links, this`nextLink
      ensures links == WithLinks(old(links), old(nextLink), site, admin, c, |c.ids|)
      ensures nextLink == old(nextLink) + |c.ids|
    {
      for i := 0 to |c.ids|
        invariant links == WithLinks(old(links), old(nextLink), site, admin, c, i) && nextLink == old(nextLink) + i
      {
        var name := if i < |c.names| then Strip(c.names[i]) else "";
        var url := if i < |c.urls| then Strip(c.urls[i]) else "";
        var k := LinkKey(site, admin, c.ids[i]);
        var row := LinkRow(if k in links then links[k].id else nextLink,
                           Prefix(if url != "" then url else c.baseUrl, URL_WIDTH),
                           Prefix(if name != "" then name else c.name, NAME_WIDTH));
        links, nextLink := links[k := row], nextLink + 1;
      }
    }

    /** The import loop of the sync, which remembers the site each channel went to. */
    method ImportAll(rules: UrlRules, admin: nat, cs: seq<Candidate>) returns (imported: nat, preferred: map<nat, nat>)
      modifies this
      ensures Snapshot() == ImportedAll(rules, old(Snapshot()), admin, cs)
      ensures preferred == Preferred(rules, old(Snapshot()), admin, cs)
      ensures imported == CreatedCount(rules, old(Snapshot()), admin, cs)
    {
      imported, preferred := 0, map[];
      for i := 0 to |cs|
        invariant Snapshot() == ImportedAll(rules, old(Snapshot()), admin, cs[..i])
        invariant preferred == Preferred(rules, old(Snapshot()), admin, cs[..i])
        invariant imported == CreatedCount(rules, old(Snapshot()), admin, cs[..i])
      {
        assert cs[..i + 1][..i] == cs[..i];
        var site, created := ImportCandidate(rules, admin, cs[i]);
        preferred := preferred + map id | id in cs[i].ids && id > 0 :: site;
        if created {
          imported := imported + 1;
        }
      }
      assert cs[..|cs|] == cs;
    }

    /** Which of a channel's current links is kept. */
    method PickCanonical(admin: nat, live: map<nat, string>, preferred: map<nat, nat>, channel: nat, rows: set<LinkKey>)
      returns (kept: LinkKey)
      requires forall k :: k in rows <==> Current(links, admin, live, k) && k.channel == channel
      requires rows != {}
      requires forall i, j :: i in links && j in links && links[i].id == links[j].id ==> i == j
      ensures kept in rows && Canonical(links, admin, live, preferred, kept)
      ensures forall k :: k in rows && k != kept ==> !Canonical(links, admin, live, preferred, k)
    {
      if channel in preferred && LinkKey(preferred[channel], admin, channel) in rows {
        kept := LinkKey(preferred[channel], admin, channel);
      } else {
        kept :| kept in rows;
        var todo := rows - {kept};
        while todo != {}
          invariant todo <= rows && kept in rows
          invariant forall k :: k in rows && k !in todo ==> links[kept].id <= links[k].id
          decreases |todo|
        {
          var k :| k in todo;
          todo := todo - {k};
          if links[k].id < links[kept].id {
            kept := k;
          }
        }
        assert !PreferenceDecides(links, admin, live, preferred, channel);
      }
      forall k | k in rows && k != kept
        ensures !Canonical(links, admin, live, preferred, k)
      {
        if Canonical(links, admin, live, preferred, k) {
          CanonicalUnique(links, admin, live, preferred, k, kept);
        }
      }
    }

    /** The classification pass over this main site's links. */
    method ClassifyLinks(admin: nat, live: map<nat, string>)
      returns (stale: set<LinkKey>, byChannel: map<nat, set<LinkKey>>, affected: set<nat>)
      ensures forall k :: k in stale <==> k in links && k.admin == admin && Stale(live, k, links[k])
      ensures affected == AdminSites(links, admin)
      ensures forall c :: c in byChannel ==>
                byChannel[c] != {} && forall k :: k in byChannel[c] <==> Current(links, admin, live, k) && k.channel == c
      ensures forall k :: Current(links, admin, live, k) ==> k.channel in byChannel
    {
      stale, byChannel, affected := {}, map[], {};
      var rows := set k | k in links && k.admin == admin;
      var todo := rows;
      while todo != {}
        invariant todo <= rows
        invariant forall k :: k in stale <==> k in rows && k !in todo && Stale(live, k, links[k])
        invariant forall k :: k in rows && k !in todo ==> k.site in affected
        invariant affected <= AdminSites(links, admin)
        invariant forall c :: c in byChannel ==>
                    byChannel[c] != {} &&
                    forall k :: k in byChannel[c] <==> k !in todo && Current(links, admin, live, k) && k.channel == c
        invariant forall k :: k !in todo && Current(links, admin, live, k) ==> k.channel in byChannel
        decreases |todo|
      {
        var k :| k in todo;
        todo := todo - {k};
        affected := affected + {k.site};
        if Stale(live, k, links[k]) {
          stale := stale + {k};
        } else {
          byChannel := byChannel[k.channel := (if k.channel in byChannel then byChannel[k.channel] else {}) + {k}];
        }
      }
    }

    /** The deletes of the reconcile; each returns the number of rows it removed. */
    method DeleteLinks(stale: set<LinkKey>) returns (removed: nat)
      requires stale <= links.Keys
      modifies this`links
      ensures links == old(links) - stale && removed == |stale|
    {
      removed := 0;
      var todo := stale;
      while todo != {}
        invariant todo <= stale && links == old(links) - (stale - todo)
        invariant removed + |todo| == |stale|
        decreases |todo|
      {
        var k :| k in todo;
        todo := todo - {k};
        links := links - {k};
        removed := removed + 1;
      }
    }

    /** `_reconcile_site_discovery_links_in_connection` */
    method ReconcileLinks(admin: nat, live: map<nat, string>, preferred: map<nat, nat>)
      returns (removed: nat, affected: set<nat>)
      requires forall i, j :: i in links && j in links && links[i].id == links[j].id ==> i == j
      modifies this`links
      ensures links == old(links) - DroppedLinks(old(links), admin, live, preferred)
      ensures removed == |DroppedLinks(old(links), admin, live, preferred)|
      ensures affected == AdminSites(old(links), admin)
    {
      var stale, byChannel;
      stale, byChannel, affected := ClassifyLinks(admin, live);
      var duplicates := FindDuplicates(admin, live, preferred, byChannel);
      DroppedAre(links, admin, live, preferred, stale, duplicates);
      removed := DeleteLinks(stale + duplicates);
    }

    /** The pass over channels with several current links. */
    method FindDuplicates(admin: nat, live: map<nat, string>, preferred: map<nat, nat>, byChannel: map<nat, set<LinkKey>>)
      returns (duplicates: set<LinkKey>)
      requires forall i, j :: i in links && j in links && links[i].id == links[j].id ==> i == j
      requires forall c :: c in byChannel ==>
                 byChannel[c] != {} && forall k :: k in byChannel[c] <==> Current(links, admin, live, k) && k.channel == c
      requires forall k :: Current(links, admin, live, k) ==> k.channel in byChannel
      ensures forall k :: k in duplicates <==>
                Current(links, admin, live, k) && !Canonical(links, admin, live, preferred, k)
    {
      hide Canonical, Current;
      duplicates := {};
      var todo := byChannel.Keys;
      while todo != {}
        invariant todo <= byChannel.Keys
        invariant forall k :: k in duplicates <==>
                    Current(links, admin, live, k) && k.channel !in todo && !Canonical(links, admin, live, preferred, k)
        decreases |todo|
      {
        var c :| c in todo;
        var kept := PickCanonical(admin, live, preferred, c, byChannel[c]);
        todo := todo - {c};
        duplicates := duplicates + (byChannel[c] - {kept});
      }
    }

    static lemma DroppedAre(links: map<LinkKey, LinkRow>, admin: nat, live: map<nat, string>, preferred: map<nat, nat>,
                            stale: set<LinkKey>, duplicates: set<LinkKey>)
      requires forall k :: k in stale <==> k in links && k.admin == admin && Stale(live, k, links[k])
      requires forall k :: k in duplicates <==>
                 Current(links, admin, live, k) && !Canonical(links, admin, live, preferred, k)
      ensures stale + duplicates == DroppedLinks(links, admin, live, preferred)
    {
      hide PreferenceDecides;
      forall k
        ensures k in stale + duplicates <==> k in DroppedLinks(links, admin, live, preferred)
      {
      }
    }

    /** One of the two loops of `_delete_stale_admin_channel_data_in_connection`. */
    static method DeleteStaleRows(rows: set<ChannelKey>, admin: nat, live: set<nat>) returns (kept: set<ChannelKey>, removed: nat)
      ensures kept == Kept(rows, admin, live)
      ensures removed == |rows - kept|
    {
      kept, removed := rows, 0;
      var todo := set b | b in rows && b.admin == admin;
      while todo != {}
        invariant todo <= rows && kept <= rows
        invariant forall b :: b in kept <==> b in rows && (b in todo || b.admin != admin || b.channel in live)
        invariant forall b :: b in todo ==> b.admin == admin
        invariant removed + |kept| == |rows|
        decreases |todo|
      {
        var b :| b in todo;
        todo := todo - {b};
        if b.channel !in live {
          kept := kept - {b};
          removed := removed + 1;
        }
      }
      assert kept == Kept(rows, admin, live);
      SubsetSize(kept, rows);
    }

    method DeleteStaleChannelData(admin: nat, live: set<nat>) returns (removedBindings: nat, removedKeys: nat)
      modifies this`bindings, this`keys
      ensures bindings == Kept(old(bindings), admin, live) && removedBindings == |old(bindings) - bindings|
      ensures keys == Kept(old(keys), admin, live) && removedKeys == |old(keys) - keys|
    {
      bindings, removedBindings := DeleteStaleRows(bindings, admin, live);
      keys, removedKeys := DeleteStaleRows(keys, admin, live);
    }

    /** SELECT COUNT(*) of the links of a site, of all main sites. */
    method CountLinks(site: nat) returns (n: nat)
      ensures n > 0 <==> HasLink(links, site)
    {
      var rows := set k | k in links && k.site == site;
      n := |rows|;
      if HasLink(links, site) {
        ghost var k :| k in links && k.site == site;
        assert k in rows;
      } else {
        assert rows == {};
      }
    }

    /** One round of the reconcile loop. */
    method ReconcileSite(id: nat, delete: bool, tally: Tally) returns (tally': Tally)
      modifies this`sites
      ensures sites == SitesAfter(old(Snapshot()), {id}, delete)
      ensures tally' == Plus(tally, old(Snapshot()), id, delete)
    {
      SitesAfterOne(Snapshot(), id, delete);
      tally' := tally;
      if id in sites {
        var remaining := CountLinks(id);
        if remaining > 0 {
          if sites[id].autoDisabled {
            sites := sites[id := sites[id].(enabled := true, autoDisabled := false)];
            tally' := tally.(reenabled := tally.reenabled + 1);
          }
        } else if delete {
          sites := sites - {id};
          tally' := tally.(deleted := tally.deleted + 1);
        } else if sites[id].enabled {
          sites := sites[id := sites[id].(enabled := false, autoDisabled := true)];
          tally' := tally.(disabled := tally.disabled + 1);
        }
      }
    }

    static ghost function Plus(tally: Tally, t: Tables, id: nat, delete: bool): Tally {
      if id !in t.sites then tally
      else if HasLink(t.links, id) then
        if t.sites[id].autoDisabled then tally.(reenabled := tally.reenabled + 1) else tally
      else if delete then tally.(deleted := tally.deleted + 1)
      else if t.sites[id].enabled then tally.(disabled := tally.disabled + 1)
      else tally
    }

    static lemma SitesAfterOne(t: Tables, id: nat, delete: bool)
      ensures SitesAfter(t, {id}, delete) ==
              if id !in t.sites then t.sites
              else if delete && !HasLink(t.links, id) then t.sites - {id}
              else t.sites[id := SiteAfter(t.sites[id], HasLink(t.links, id))]
    {
      var after := SitesAfter(t, {id}, delete);
      assert forall j :: j in DeletedSites(t, {id}) <==> j == id && id in t.sites && !HasLink(t.links, id);
      assert forall j :: j in after <==> j in t.sites && !(delete && j == id && !HasLink(t.links, id));
    }

    /** `_apply_admin_site_channel_reconcile_in_connection` */
    method ApplyReconcile(admin: nat, touched: set<nat>, delete: bool) returns (tally: Tally)
      modifies this`sites
      ensures sites == SitesAfter(old(Snapshot()), touched + AdminSites(links, admin), delete)
      ensures tally == TallyOf(old(Snapshot()), touched + AdminSites(links, admin), delete)
    {
      ghost var t := Snapshot();
      NoSites(t, delete);
      tally := Tally(0, 0, 0);
      var todo := touched + AdminSites(links, admin);
      ghost var affected, done: set<nat> := todo, {};
      hide SitesAfter, TallyOf, AdminSites, Plus, HasLink, Parts;
      NoneDone(affected);
      while todo != {}
        invariant Parts(affected, todo, done)
        invariant Snapshot() == Reconciled(t, done, delete)
        invariant tally == TallyOf(t, done, delete)
        decreases |todo|
      {
        var id :| id in todo;
        OneMoreDone(affected, todo, done, id);
        ReconcileOneMore(t, done, id, delete);
        CountOneMore(t, done, id, delete);
        tally := ReconcileSite(id, delete, tally);
        todo := todo - {id};
        done := done + {id};
      }
      AllDone(affected, done);
    }

    /** The sites still to reconcile, and those done. */
    static predicate Parts(affected: set<nat>, todo: set<nat>, done: set<nat>) {
      todo !! done && todo + done == affected
    }

    static lemma NoneDone(affected: set<nat>)
      ensures Parts(affected, affected, {})
    {
    }

    static lemma OneMoreDone(affected: set<nat>, todo: set<nat>, done: set<nat>, id: nat)
      requires Parts(affected, todo, done) && id in todo
      ensures id !in done && Parts(affected, todo - {id}, done + {id})
    {
    }

    static lemma AllDone(affected: set<nat>, done: set<nat>)
      requires Parts(affected, {}, done)
      ensures done == affected
    {
    }

    static lemma NoSites(t: Tables, delete: bool)
      ensures SitesAfter(t, {}, delete) == t.sites
      ensures TallyOf(t, {}, delete) == Tally(0, 0, 0)
    {
      assert DeletedSites(t, {}) == {} && DisabledSites(t, {}) == {} && ReenabledSites(t, {}) == {};
      assert SitesAfter(t, {}, delete) == t.sites;
    }

    static lemma ReconcileOneMore(t: Tables, done: set<nat>, id: nat, delete: bool)
      requires id !in done
      ensures SitesAfter(Reconciled(t, done, delete), {id}, delete) == SitesAfter(t, done + {id}, delete)
    {
      var t1 := Reconciled(t, done, delete);
      SitesAfterOne(t1, id, delete);
      var after := SitesAfter(t, done + {id}, delete);
      assert forall j :: j in after <==> j in t.sites && !(delete && j in done + {id} && !HasLink(t.links, j));
      assert SitesAfter(t1, {id}, delete) == after;
    }

    static lemma NotYetReconciled(t: Tables, done: set<nat>, id: nat, delete: bool)
      requires id !in done
      ensures id in t.sites <==> id in SitesAfter(t, done, delete)
      ensures id in t.sites ==> SitesAfter(t, done, delete)[id] == t.sites[id]
    {
    }

    static lemma OneMore(a: set<nat>, b: set<nat>, id: nat, counts: bool)
      requires id !in a && forall x :: x in b <==> x in a || (counts && x == id)
      ensures |b| == |a| + if counts then 1 else 0
    {
      assert b == a + if counts then {id} else {};
    }

    static lemma CountOneMore(t: Tables, done: set<nat>, id: nat, delete: bool)
      requires id !in done
      ensures TallyOf(t, done + {id}, delete) ==
              Plus(TallyOf(t, done, delete), Reconciled(t, done, delete), id, delete)
    {
      NotYetReconciled(t, done, id, delete);
      hide HasLink, SitesAfter;
      OneMore(DisabledSites(t, done), DisabledSites(t, done + {id}), id,
              id in t.sites && !HasLink(t.links, id) && t.sites[id].enabled);
      OneMore(ReenabledSites(t, done), ReenabledSites(t, done + {id}), id,
              id in t.sites && HasLink(t.links, id) && t.sites[id].autoDisabled);
      OneMore(DeletedSites(t, done), DeletedSites(t, done + {id}), id, id in t.sites && !HasLink(t.links, id));
    }

    /** `_delete_platform_mismatch_site_links_in_connection` */
    method DeleteMismatched(admin: nat, urls: set<string>) returns (removedLinks: nat, deletedSites: nat)
      modifies this`links, this`sites
      ensures Snapshot() == Matched(old(Snapshot()), admin, urls)
      ensures removedLinks == |MismatchLinks(old(links), admin, urls)|
      ensures deletedSites == |MismatchSites(old(Snapshot()), admin, urls)|
    {
      ghost var t := Snapshot();
      var dropped := MismatchLinks(links, admin, urls);
      removedLinks := DeleteLinks(dropped);
      ghost var gone;
      deletedSites, gone := DeleteUnlinked(set k | k in dropped :: k.site);
      MismatchSitesAre(t, admin, urls, gone);
    }

    static lemma MismatchSitesAre(t: Tables, admin: nat, urls: set<string>, gone: set<nat>)
      requires var dropped := MismatchLinks(t.links, admin, urls);
               forall id :: id in gone <==> id in (set k | k in dropped :: k.site) && id in t.sites && !HasLink(t.links - dropped, id)
      ensures gone == MismatchSites(t, admin, urls)
    {
    }

    /** Deletes those of the given sites that no link of any main site leads to. */
    method DeleteUnlinked(candidates: set<nat>) returns (deleted: nat, ghost gone: set<nat>)
      modifies this`sites
      ensures forall id :: id in gone <==> id in candidates && id in old(sites) && !HasLink(links, id)
      ensures sites == old(sites) - gone && deleted == |gone|
    {
      hide HasLink;
      deleted, gone := 0, {};
      var todo := candidates;
      while todo != {}
        invariant todo <= candidates
        invariant forall id :: id in gone <==> id in candidates && id !in todo && id in old(sites) && !HasLink(links, id)
        invariant sites == old(sites) - gone && deleted == |gone|
        decreases |todo|
      {
        var id :| id in todo;
        todo := todo - {id};
        var remaining := CountLinks(id);
        if remaining == 0 && id in sites {
          gone := gone + {id};
          sites := sites - {id};
          deleted := deleted + 1;
        }
      }
    }

    /** `_sync_admin_site_snapshot_in_connection`: refuses a NewAPI snapshot with an unusable channel
        URL and then changes nothing; for a sub2api main site only cached rows are cleaned up. */
    method Sync(rules: UrlRules, admin: nat, newApi: bool, channels: seq<Channel>, scope: Scope, syncable: string -> bool,
                delete: bool)
      returns (ok: bool, report: Report)
      requires NormalizedList(channels) && Consistent(Snapshot())
      modifies this
      ensures ok == (admin > 0 && (newApi ==> forall ch :: ch in channels ==> rules.ChannelUrl(ch) != ""))
      ensures !ok ==> Snapshot() == old(Snapshot())
      ensures ok && newApi ==>
                var p := MakePlan(rules, Checked(rules, channels), scope, syncable);
                && Snapshot() == Synced(rules, old(Snapshot()), admin, p, delete)
                && report == SyncReport(rules, old(Snapshot()), admin, p, delete)
      ensures ok && !newApi ==>
                var live := set ch | ch in channels && ch.id > 0 :: ch.id;
                Snapshot() == old(Snapshot()).(bindings := Kept(old(bindings), admin, live), keys := Kept(old(keys), admin, live))
    {
      report := NOTHING_DONE;
      ok := admin > 0 && (newApi ==> forall ch :: ch in channels ==> rules.ChannelUrl(ch) != "");
      if !ok {
        return;
      }
      var liveIds := set ch | ch in channels && ch.id > 0 :: ch.id;
      if !newApi {
        var b, k := DeleteStaleChannelData(admin, liveIds);
        report := report.(removedBindings := b, removedKeys := k);
        return;
      }
      var checked := CheckUrls(rules, channels);
      report := SyncNewApi(rules, admin, checked, scope, syncable, delete);
    }

    /** The loop that checks every channel's URL and stores the checked one. */
    static method CheckUrls(rules: UrlRules, channels: seq<Channel>) returns (checked: seq<Channel>)
      ensures checked == Checked(rules, channels)
    {
      checked := channels;
      for i := 0 to |channels|
        invariant |checked| == |channels|
        invariant forall j :: 0 <= j < i ==> checked[j] == Checked(rules, channels)[j]
        invariant forall j :: i <= j < |channels| ==> checked[j] == channels[j]
      {
        checked := checked[i := checked[i].(baseUrl := rules.ChannelUrl(checked[i]))];
      }
    }

    method SyncNewApi(rules: UrlRules, admin: nat, channels: seq<Channel>, scope: Scope, syncable: string -> bool,
                      delete: bool)
      returns (report: Report)
      requires NormalizedList(channels) && Consistent(Snapshot())
      modifies this
      ensures Snapshot() == Synced(rules, old(Snapshot()), admin, MakePlan(rules, channels, scope, syncable), delete)
      ensures report == SyncReport(rules, old(Snapshot()), admin, MakePlan(rules, channels, scope, syncable), delete)
    {
      ghost var t := Snapshot();
      ghost var p := MakePlan(rules, channels, scope, syncable);
      MakePlanOk(rules, channels, scope, syncable);
      SyncConsistent(rules, t, admin, p, delete);
      var candidates := AggregateCandidates(rules, channels);
      var chosen := Choose(scope, syncable, candidates);
      var mismatched := if scope.Recognized? then set c | c in candidates && !syncable(c.baseUrl) :: c.baseUrl else {};
      var live := LiveChannelUrls(candidates);
      assert p.chosen == chosen && p.mismatched == mismatched && p.live == live;
      report := RunPlan(rules, admin, p, chosen, mismatched, live, set ch | ch in channels && ch.id > 0 :: ch.id, delete);
    }

    method RunPlan(rules: UrlRules, admin: nat, ghost p: Plan, chosen: seq<Candidate>, mismatched: set<string>,
                   live: map<nat, string>, liveIds: set<nat>, delete: bool)
      returns (report: Report)
      requires chosen == p.chosen && mismatched == p.mismatched && live == p.live && liveIds == p.liveIds
      requires Consistent(AfterImport(rules, Snapshot(), admin, p))
      modifies this
      ensures Snapshot() == Synced(rules, old(Snapshot()), admin, p, delete)
      ensures report == SyncReport(rules, old(Snapshot()), admin, p, delete)
    {
      ghost var t := Snapshot();
      var imported, preferred := ImportAll(rules, admin, chosen);
      hide ImportedAll, Preferred, CreatedCount, DroppedLinks, SitesAfter, MismatchLinks, MismatchSites, TallyOf, Kept,
        AdminSites;
      ghost var t1 := Snapshot();
      assert t1 == AfterImport(rules, t, admin, p);
      var removedLinks, affected := ReconcileLinks(admin, live, preferred);
      var removedBindings, removedKeys := DeleteStaleChannelData(admin, liveIds);
      ghost var t2 := Snapshot();
      assert t2 == AfterCleanup(rules, t, admin, p);
      var tally := ApplyReconcile(admin, affected, delete);
      ghost var t3 := Snapshot();
      assert t3 == AfterReconcile(rules, t, admin, p, delete);
      var platformLinks, platformSites := DeleteMismatched(admin, mismatched);
      report := Report(imported, removedLinks, removedBindings, removedKeys, tally, platformLinks, platformSites);
    }
  }
}
