/** Grouping a main site's channels into upstream-site candidates, and the live-URL table the
    reconcile works from. */
module Candidates {
  import opened Urls

  /** One row of the main site's channel list; id 0 stands for a missing or non-positive id. */
  datatype Channel = Channel(id: nat, name: string, baseUrl: string)

  /** `ids`, `names` and `urls` are index-aligned.  `key` is the dictionary key of the group. */
  datatype Candidate = Candidate(
    key: string,
    baseUrl: string,
    name: string,
    ids: seq<nat>,
    names: seq<string>,
    urls: seq<string>)
  {
    predicate Aligned() {
      |ids| == |names| == |urls|
    }
  }

  /** `site_merge_key` and the scheme/host check of `_normalize_discovery_base_url`; both look only
      at the URL text and are left uninterpreted. */
  datatype UrlRules = UrlRules(mergeKey: string -> string, acceptable: string -> bool)
  {
    function GroupKey(base: string): string {
      if mergeKey(base) != "" then mergeKey(base) else base
    }

    /** The discovery URL of a channel, "" when it has none. */
    function ChannelUrl(ch: Channel): (u: string)
      ensures RStripSlash(u) == u
    {
      var u := Normalize(ch.baseUrl);
      if u != "" && acceptable(u) then u else ""
    }

    predicate Usable(ch: Channel) {
      ch.id > 0 && ChannelUrl(ch) != ""
    }
  }

  /** The sync replaces each channel's URL by the checked one before it aggregates, which checks
      again. */
  function Checked(rules: UrlRules, channels: seq<Channel>): (r: seq<Channel>)
    ensures |r| == |channels|
    ensures forall i :: 0 <= i < |channels| ==> r[i].id == channels[i].id
  {
    seq(|channels|, i requires 0 <= i < |channels| => channels[i].(baseUrl := rules.ChannelUrl(channels[i])))
  }

  /** A channel counts exactly if it has an id and its normalized URL is not empty and passes the check. */
  lemma UsableIff(rules: UrlRules, ch: Channel)
    ensures rules.Usable(ch) <==>
      ch.id > 0 && Normalize(ch.baseUrl) != "" && rules.acceptable(Normalize(ch.baseUrl))
    ensures rules.Usable(ch) ==> rules.ChannelUrl(ch) == Normalize(ch.baseUrl)
  {
  }

  /** A channel URL that was checked is the same when it is checked again, exactly if it does not end in a
      blank. */
  lemma CheckedAgainIff(rules: UrlRules, channels: seq<Channel>, i: nat)
    requires i < |channels| && rules.ChannelUrl(channels[i]) != ""
    ensures var u, again := rules.ChannelUrl(channels[i]), Checked(rules, channels)[i];
            && again.id == channels[i].id && again.name == channels[i].name
            && (rules.ChannelUrl(again) == u <==> !IsSpace(u[|u| - 1]))
  {
    NormalizeAgainIff(channels[i].baseUrl);
  }

  // ---------------------------------------------------------------------------------------
  // aggregate_newapi_channel_candidates
  // ---------------------------------------------------------------------------------------

  function IndexOf<T(==)>(s: seq<T>, x: T): (i: nat)
    ensures i <= |s|
    ensures i < |s| ==> s[i] == x
    ensures x in s <==> i < |s|
  {
    if s == [] || s[0] == x then 0 else 1 + IndexOf(s[1..], x)
  }

  function KeyIndex(groups: seq<Candidate>, key: string): (i: nat)
    ensures i <= |groups|
    ensures i < |groups| ==> groups[i].key == key
    ensures forall j :: 0 <= j < i ==> groups[j].key != key
  {
    if groups == [] || groups[0].key == key then 0 else 1 + KeyIndex(groups[1..], key)
  }

  /** One channel joins a group; a repeated id only fills in what was missing. */
  function WithChannel(c: Candidate, id: nat, name: string, url: string): (c': Candidate)
    requires c.Aligned()
    ensures c'.Aligned() && c'.key == c.key && c'.baseUrl == c.baseUrl
  {
    var named := if name != "" && c.name == "" then c.(name := name) else c;
    if id !in c.ids then
      named.(ids := c.ids + [id], names := c.names + [name], urls := c.urls + [url])
    else
      var i := IndexOf(c.ids, id);
      named.(names := if name != "" && c.names[i] == "" then c.names[i := name] else c.names,
             urls := if c.urls[i] == "" then c.urls[i := url] else c.urls)
  }

  ghost predicate AllAligned(groups: seq<Candidate>) {
    forall i :: 0 <= i < |groups| ==> groups[i].Aligned()
  }

  function Placed(groups: seq<Candidate>, key: string, ch: Channel, url: string): (groups': seq<Candidate>)
    requires AllAligned(groups)
    ensures AllAligned(groups')
  {
    var i := KeyIndex(groups, key);
    if i == |groups|
    then groups + [WithChannel(Candidate(key, url, "", [], [], []), ch.id, Strip(ch.name), url)]
    else groups[i := WithChannel(groups[i], ch.id, Strip(ch.name), url)]
  }

  function Grouped(rules: UrlRules, channels: seq<Channel>): (groups: seq<Candidate>)
    ensures AllAligned(groups)
    decreases |channels|
  {
    if channels == [] then []
    else
      var groups := Grouped(rules, channels[..|channels| - 1]);
      var ch := channels[|channels| - 1];
      var url := rules.ChannelUrl(ch);
      if rules.Usable(ch) then Placed(groups, rules.GroupKey(url), ch, url) else groups
  }

  function Named(c: Candidate): Candidate {
    if c.name == "" then c.(name := c.baseUrl) else c
  }

  function Aggregate(rules: UrlRules, channels: seq<Channel>): (candidates: seq<Candidate>)
    ensures AllAligned(candidates)
  {
    var groups := Grouped(rules, channels);
    seq(|groups|, i requires 0 <= i < |groups| => Named(groups[i]))
  }

  /** `grouped`, a dictionary whose keys were inserted in the order `order`, holds these groups. */
  ghost predicate Holds(order: seq<string>, grouped: map<string, Candidate>, groups: seq<Candidate>) {
    && |order| == |groups|
    && (forall k :: k in grouped <==> k in order)
    && (forall i :: 0 <= i < |order| ==> order[i] in grouped && grouped[order[i]] == groups[i] && groups[i].key == order[i])
    && (forall i, j :: 0 <= i < j < |order| ==> order[i] != order[j])
  }

  lemma KeyIndexIsLookup(order: seq<string>, grouped: map<string, Candidate>, groups: seq<Candidate>, key: string)
    requires Holds(order, grouped, groups)
    ensures key in grouped <==> KeyIndex(groups, key) < |groups|
    ensures key in grouped ==> order[KeyIndex(groups, key)] == key && grouped[key] == groups[KeyIndex(groups, key)]
  {
    if key in grouped {
      var i :| 0 <= i < |order| && order[i] == key;
      assert groups[i].key == key;
    }
    var i := KeyIndex(groups, key);
    if i < |groups| {
      assert order[i] == groups[i].key == key;
    }
  }

  /** Update of one dictionary entry. */
  method AddToItem(item: Candidate, id: nat, name: string, url: string) returns (r: Candidate)
    requires item.Aligned()
    ensures r == WithChannel(item, id, name, url)
  {
    r := item;
    if name != "" && r.name == "" {
      r := r.(name := name);
    }
    if id !in r.ids {
      r := r.(ids := r.ids + [id], names := r.names + [name], urls := r.urls + [url]);
    } else {
      var i := IndexOf(r.ids, id);
      if name != "" && r.names[i] == "" {
        r := r.(names := r.names[i := name]);
      }
      if r.urls[i] == "" {
        r := r.(urls := r.urls[i := url]);
      }
    }
  }

  method AddChannel(order: seq<string>, grouped: map<string, Candidate>, key: string, ch: Channel, url: string,
                    ghost groups: seq<Candidate>)
    returns (order': seq<string>, grouped': map<string, Candidate>)
    requires Holds(order, grouped, groups) && AllAligned(groups)
    ensures Holds(order', grouped', Placed(groups, key, ch, url))
  {
    KeyIndexIsLookup(order, grouped, groups, key);
    var item;
    if key in grouped {
      order', item := order, grouped[key];
    } else {
      order', item := order + [key], Candidate(key, url, "", [], [], []);
    }
    var updated := AddToItem(item, ch.id, Strip(ch.name), url);
    grouped' := grouped[key := updated];
  }

  /** The program's loop. */
  method AggregateCandidates(rules: UrlRules, channels: seq<Channel>) returns (candidates: seq<Candidate>)
    ensures candidates == Aggregate(rules, channels)
  {
    var order: seq<string> := [];
    var grouped: map<string, Candidate> := map[];
    ghost var groups := [];
    for n := 0 to |channels|
      invariant groups == Grouped(rules, channels[..n]) && Holds(order, grouped, groups)
    {
      var ch := channels[n];
      assert channels[..n + 1][..n] == channels[..n];
      var url := rules.ChannelUrl(ch);
      if ch.id > 0 && url != "" {
        order, grouped := AddChannel(order, grouped, rules.GroupKey(url), ch, url, groups);
        groups := Placed(groups, rules.GroupKey(url), ch, url);
      }
    }
    assert channels[..|channels|] == channels;
    candidates := seq(|order|, i requires 0 <= i < |order| && order[i] in grouped => Named(grouped[order[i]]));
  }

  // ---------------------------------------------------------------------------------------
  // What the grouping guarantees for a normalized list
  // ---------------------------------------------------------------------------------------

  /** `normalize_admin_sync_channels` returns positive ids in strictly ascending order. */
  ghost predicate NormalizedList(channels: seq<Channel>) {
    && (forall i :: 0 <= i < |channels| ==> channels[i].id > 0)
    && (forall i, j :: 0 <= i < j < |channels| ==> channels[i].id < channels[j].id)
  }

  /** Position `m` of the three aligned lists is channel `ch`. */
  ghost predicate Carries(rules: UrlRules, c: Candidate, m: nat, ch: Channel) {
    && 0 <= m < |c.ids| && c.Aligned()
    && c.ids[m] == ch.id
    && c.urls[m] == rules.ChannelUrl(ch)
    && c.names[m] == Strip(ch.name)
    && c.key == rules.GroupKey(rules.ChannelUrl(ch))
    && rules.Usable(ch)
  }

  ghost predicate Sourced(rules: UrlRules, c: Candidate, m: nat, channels: seq<Channel>) {
    exists n :: 0 <= n < |channels| && Carries(rules, c, m, channels[n])
  }

  ghost predicate Distinct(ids: seq<nat>) {
    forall i, j :: 0 <= i < j < |ids| ==> ids[i] != ids[j]
  }

  ghost predicate GroupOk(rules: UrlRules, c: Candidate, channels: seq<Channel>) {
    && c.Aligned() && |c.urls| > 0 && c.baseUrl == c.urls[0]
    && Distinct(c.ids)
    && forall m :: 0 <= m < |c.ids| ==> Sourced(rules, c, m, channels)
  }

  ghost predicate DistinctKeys(groups: seq<Candidate>) {
    forall i, j :: 0 <= i < j < |groups| ==> groups[i].key != groups[j].key
  }

  ghost predicate Held(rules: UrlRules, groups: seq<Candidate>, ch: Channel) {
    exists i, m :: 0 <= i < |groups| && Carries(rules, groups[i], m, ch)
  }

  ghost predicate GroupsOf(rules: UrlRules, groups: seq<Candidate>, channels: seq<Channel>) {
    && DistinctKeys(groups)
    && (forall i :: 0 <= i < |groups| ==> GroupOk(rules, groups[i], channels))
    && (forall n :: 0 <= n < |channels| && rules.Usable(channels[n]) ==> Held(rules, groups, channels[n]))
  }

  lemma GroupOkGrows(rules: UrlRules, c: Candidate, prior: seq<Channel>, ch: Channel)
    requires NormalizedList(prior + [ch]) && GroupOk(rules, c, prior)
    ensures GroupOk(rules, c, prior + [ch])
    ensures ch.id !in c.ids
  {
    var all := prior + [ch];
    forall m | 0 <= m < |c.ids|
      ensures Sourced(rules, c, m, all) && c.ids[m] != ch.id
    {
      assert Sourced(rules, c, m, prior);
      var n :| 0 <= n < |prior| && Carries(rules, c, m, prior[n]);
      assert all[n] == prior[n];
      assert all[n].id < all[|prior|].id;
    }
  }

  lemma WithChannelOk(rules: UrlRules, c: Candidate, all: seq<Channel>, n: nat)
    requires n < |all| && rules.Usable(all[n]) && all[n].id !in c.ids
    requires c.key == rules.GroupKey(rules.ChannelUrl(all[n]))
    requires GroupOk(rules, c, all) || (c.ids == [] && c.Aligned() && c.baseUrl == rules.ChannelUrl(all[n]))
    ensures var c' := WithChannel(c, all[n].id, Strip(all[n].name), rules.ChannelUrl(all[n]));
            && GroupOk(rules, c', all)
            && Carries(rules, c', |c.ids|, all[n])
            && forall ch, m :: Carries(rules, c, m, ch) ==> Carries(rules, c', m, ch)
  {
    var c' := WithChannel(c, all[n].id, Strip(all[n].name), rules.ChannelUrl(all[n]));
    assert Carries(rules, c', |c.ids|, all[n]);
    forall m | 0 <= m < |c'.ids|
      ensures Sourced(rules, c', m, all)
    {
      if m < |c.ids| {
        assert Sourced(rules, c, m, all);
        var k :| 0 <= k < |all| && Carries(rules, c, m, all[k]);
        assert Carries(rules, c', m, all[k]);
      }
    }
  }

  lemma PlacedKeeps(rules: UrlRules, groups: seq<Candidate>, prior: seq<Channel>, ch: Channel)
    requires GroupsOf(rules, groups, prior) && NormalizedList(prior + [ch]) && AllAligned(groups)
    requires rules.Usable(ch)
    ensures var url := rules.ChannelUrl(ch);
            GroupsOf(rules, Placed(groups, rules.GroupKey(url), ch, url), prior + [ch])
  {
    var all := prior + [ch];
    var url := rules.ChannelUrl(ch);
    var key := rules.GroupKey(url);
    var i := KeyIndex(groups, key);
    var c := if i == |groups| then Candidate(key, url, "", [], [], []) else groups[i];
    var groups' := Placed(groups, key, ch, url);
    assert all[|prior|] == ch;
    forall g | 0 <= g < |groups|
      ensures GroupOk(rules, groups[g], all) && ch.id !in groups[g].ids
    {
      GroupOkGrows(rules, groups[g], prior, ch);
    }
    WithChannelOk(rules, c, all, |prior|);
    forall n | 0 <= n < |all| && rules.Usable(all[n])
      ensures Held(rules, groups', all[n])
    {
      if n < |prior| {
        assert Held(rules, groups, prior[n]);
        var g, m :| 0 <= g < |groups| && Carries(rules, groups[g], m, prior[n]);
        assert Carries(rules, groups'[g], m, all[n]);
      } else {
        assert Carries(rules, groups'[i], |c.ids|, all[n]);
      }
    }
  }

  lemma {:induction false} GroupedIsGroupsOf(rules: UrlRules, channels: seq<Channel>)
    requires NormalizedList(channels)
    ensures GroupsOf(rules, Grouped(rules, channels), channels)
    decreases |channels|
  {
    if channels != [] {
      var prior, ch := channels[..|channels| - 1], channels[|channels| - 1];
      GroupedIsGroupsOf(rules, prior);
      assert channels == prior + [ch];
      var groups := Grouped(rules, prior);
      if rules.Usable(ch) {
        PlacedKeeps(rules, groups, prior, ch);
      } else {
        forall g | 0 <= g < |groups|
          ensures GroupOk(rules, groups[g], channels)
        {
          GroupOkGrows(rules, groups[g], prior, ch);
        }
      }
    }
  }

  ghost predicate Disjoint(a: seq<nat>, b: seq<nat>) {
    forall x :: x in a ==> x !in b
  }

  ghost predicate CandidateOk(rules: UrlRules, c: Candidate) {
    && c.Aligned() && |c.urls| > 0
    && c.baseUrl != "" && RStripSlash(c.baseUrl) == c.baseUrl
    && c.key == rules.GroupKey(c.baseUrl)
    && Distinct(c.ids)
    && forall m :: 0 <= m < |c.ids| ==> c.ids[m] > 0
  }

  /** Candidates of one snapshot: what the sync relies on. */
  ghost predicate WellFormed(rules: UrlRules, candidates: seq<Candidate>) {
    && DistinctKeys(candidates)
    && (forall i :: 0 <= i < |candidates| ==> CandidateOk(rules, candidates[i]))
    && (forall i, j :: 0 <= i < j < |candidates| ==> Disjoint(candidates[i].ids, candidates[j].ids))
  }

  lemma NamedKeeps(rules: UrlRules, c: Candidate, channels: seq<Channel>)
    requires GroupOk(rules, c, channels) && NormalizedList(channels)
    ensures GroupOk(rules, Named(c), channels) && CandidateOk(rules, Named(c)) && Named(c).key == c.key
    ensures forall m, ch :: Carries(rules, c, m, ch) ==> Carries(rules, Named(c), m, ch)
  {
    forall m | 0 <= m < |c.ids|
      ensures Sourced(rules, Named(c), m, channels) && c.ids[m] > 0
    {
      assert Sourced(rules, c, m, channels);
      var n :| 0 <= n < |channels| && Carries(rules, c, m, channels[n]);
      assert Carries(rules, Named(c), m, channels[n]);
    }
    assert Sourced(rules, c, 0, channels);
    var n :| 0 <= n < |channels| && Carries(rules, c, 0, channels[n]);
    assert c.baseUrl == c.urls[0] == rules.ChannelUrl(channels[n]);
  }

  lemma SameChannelSameGroup(rules: UrlRules, a: Candidate, b: Candidate, channels: seq<Channel>, m: nat, k: nat)
    requires NormalizedList(channels) && GroupOk(rules, a, channels) && GroupOk(rules, b, channels)
    requires m < |a.ids| && k < |b.ids| && a.ids[m] == b.ids[k]
    ensures a.key == b.key
  {
    assert Sourced(rules, a, m, channels) && Sourced(rules, b, k, channels);
    var n :| 0 <= n < |channels| && Carries(rules, a, m, channels[n]);
    var n' :| 0 <= n' < |channels| && Carries(rules, b, k, channels[n']);
    assert n == n' || channels[n].id < channels[n'].id || channels[n'].id < channels[n].id;
  }

  /** No channel is in two groups. */
  lemma GroupsDisjoint(rules: UrlRules, a: Candidate, b: Candidate, channels: seq<Channel>)
    requires NormalizedList(channels) && GroupOk(rules, a, channels) && GroupOk(rules, b, channels)
    requires a.key != b.key
    ensures Disjoint(a.ids, b.ids)
  {
    forall m: nat, k: nat | m < |a.ids| && k < |b.ids|
      ensures a.ids[m] != b.ids[k]
    {
      if a.ids[m] == b.ids[k] {
        SameChannelSameGroup(rules, a, b, channels, m, k);
      }
    }
  }

  /** Aggregation partitions a normalized list: every usable channel is carried by a candidate at
      one position of its aligned lists, every position carries a channel of the list, no channel
      occurs twice, and candidate entries are the URLs of their first channels. */
  lemma AggregatePartitions(rules: UrlRules, channels: seq<Channel>)
    requires NormalizedList(channels)
    ensures GroupsOf(rules, Aggregate(rules, channels), channels)
    ensures WellFormed(rules, Aggregate(rules, channels))
  {
    GroupedIsGroupsOf(rules, channels);
    var groups, cs := Grouped(rules, channels), Aggregate(rules, channels);
    forall i | 0 <= i < |groups|
      ensures GroupOk(rules, cs[i], channels) && CandidateOk(rules, cs[i]) && cs[i].key == groups[i].key
      ensures forall m, ch :: Carries(rules, groups[i], m, ch) ==> Carries(rules, cs[i], m, ch)
    {
      NamedKeeps(rules, groups[i], channels);
    }
    forall n | 0 <= n < |channels| && rules.Usable(channels[n])
      ensures Held(rules, cs, channels[n])
    {
      assert Held(rules, groups, channels[n]);
      var i, m :| 0 <= i < |groups| && Carries(rules, groups[i], m, channels[n]);
      assert Carries(rules, cs[i], m, channels[n]);
    }
    forall i, j | 0 <= i < j < |cs|
      ensures Disjoint(cs[i].ids, cs[j].ids)
    {
      assert groups[i].key != groups[j].key;
      GroupsDisjoint(rules, cs[i], cs[j], channels);
    }
  }

  /** Two usable channels are in one candidate exactly if their URLs share a merge key; a URL that has none
      stands for itself. */
  lemma SameCandidateIff(rules: UrlRules, channels: seq<Channel>, a: nat, b: nat, i: nat)
    requires NormalizedList(channels) && a < |channels| && b < |channels| && i < |Aggregate(rules, channels)|
    requires rules.Usable(channels[a]) && rules.Usable(channels[b])
    requires channels[a].id in Aggregate(rules, channels)[i].ids
    ensures var u, v := rules.ChannelUrl(channels[a]), rules.ChannelUrl(channels[b]);
            var ku, kv := rules.mergeKey(u), rules.mergeKey(v);
            channels[b].id in Aggregate(rules, channels)[i].ids <==>
              (if ku != "" && kv != "" then ku == kv
               else if ku != "" then ku == v
               else if kv != "" then u == kv
               else u == v)
  {
    AggregatePartitions(rules, channels);
    var cs := Aggregate(rules, channels);
    var k := HomeOf(rules, channels, a, i);
    assert Held(rules, cs, channels[b]);
    var j, m :| 0 <= j < |cs| && Carries(rules, cs[j], m, channels[b]);
    if channels[b].id in cs[i].ids {
      var l := HomeOf(rules, channels, b, i);
    }
  }

  /** A channel listed in a candidate is carried by it. */
  lemma HomeOf(rules: UrlRules, channels: seq<Channel>, n: nat, i: nat) returns (m: nat)
    requires NormalizedList(channels) && n < |channels| && i < |Aggregate(rules, channels)|
    requires rules.Usable(channels[n]) && channels[n].id in Aggregate(rules, channels)[i].ids
    ensures Carries(rules, Aggregate(rules, channels)[i], m, channels[n])
  {
    AggregatePartitions(rules, channels);
    var c := Aggregate(rules, channels)[i];
    m :| 0 <= m < |c.ids| && c.ids[m] == channels[n].id;
    assert Sourced(rules, c, m, channels);
    var k :| 0 <= k < |channels| && Carries(rules, c, m, channels[k]);
    IdTells(channels, n, k);
  }

  lemma IdTells(channels: seq<Channel>, n: nat, k: nat)
    requires NormalizedList(channels) && n < |channels| && k < |channels| && channels[n].id == channels[k].id
    ensures n == k
  {
  }

  // ---------------------------------------------------------------------------------------
  // Names and order
  // ---------------------------------------------------------------------------------------

  function FirstName(names: seq<string>): string {
    if names == [] then ""
    else if FirstName(names[..|names| - 1]) != "" then FirstName(names[..|names| - 1])
    else names[|names| - 1]
  }

  ghost predicate AscendingIds(ids: seq<nat>) {
    forall i, j :: 0 <= i < j < |ids| ==> ids[i] < ids[j]
  }

  /** Within a group the channels come in the order of the list, and the group is called after the first of
      them that has a name. */
  ghost predicate GroupInOrder(c: Candidate, below: nat) {
    && c.Aligned() && c.ids != [] && AscendingIds(c.ids) && c.name == FirstName(c.names)
    && forall m :: 0 <= m < |c.ids| ==> c.ids[m] < below
  }

  /** The groups come in the order of their first channels. */
  ghost predicate GroupsInOrder(groups: seq<Candidate>, below: nat) {
    && (forall i :: 0 <= i < |groups| ==> GroupInOrder(groups[i], below))
    && (forall i, j :: 0 <= i < j < |groups| ==> groups[i].ids[0] < groups[j].ids[0])
  }

  lemma WithChannelInOrder(c: Candidate, id: nat, name: string, url: string)
    requires GroupInOrder(c, id) || (c.ids == [] && c.Aligned() && c.name == "")
    ensures var c' := WithChannel(c, id, name, url);
            GroupInOrder(c', id + 1) && c'.ids[0] == if c.ids == [] then id else c.ids[0]
  {
    var c' := WithChannel(c, id, name, url);
    assert id !in c.ids;
    assert c'.names[..|c'.names| - 1] == c.names;
  }

  lemma {:induction false} GroupedInOrder(rules: UrlRules, channels: seq<Channel>, below: nat)
    requires NormalizedList(channels) && (forall n :: 0 <= n < |channels| ==> channels[n].id < below)
    ensures GroupsInOrder(Grouped(rules, channels), below)
    decreases |channels|
  {
    if channels != [] {
      var n := |channels| - 1;
      var ch := channels[n];
      GroupedInOrder(rules, channels[..n], ch.id);
      var groups := Grouped(rules, channels[..n]);
      if rules.Usable(ch) {
        PlacedInOrder(groups, rules.GroupKey(rules.ChannelUrl(ch)), ch, rules.ChannelUrl(ch));
      }
      StillInOrder(Grouped(rules, channels), if rules.Usable(ch) then ch.id + 1 else ch.id, below);
    }
  }

  lemma StillInOrder(groups: seq<Candidate>, least: nat, below: nat)
    requires GroupsInOrder(groups, least) && least <= below
    ensures GroupsInOrder(groups, below)
  {
  }

  lemma PlacedInOrder(groups: seq<Candidate>, key: string, ch: Channel, url: string)
    requires AllAligned(groups) && GroupsInOrder(groups, ch.id)
    ensures GroupsInOrder(Placed(groups, key, ch, url), ch.id + 1)
  {
    var i := KeyIndex(groups, key);
    var c := if i == |groups| then Candidate(key, url, "", [], [], []) else groups[i];
    WithChannelInOrder(c, ch.id, Strip(ch.name), url);
    StillInOrder(groups, ch.id, ch.id + 1);
    hide WithChannel;
    var groups' := Placed(groups, key, ch, url);
    assert forall j :: 0 <= j < |groups| && j != i ==> groups'[j] == groups[j];
  }

  /** The candidates come in the order of their first channels, each with its channels in the order of the
      list, and each called after the first channel with a name, or else by its base URL. */
  lemma AggregateInOrder(rules: UrlRules, channels: seq<Channel>, i: nat)
    requires NormalizedList(channels) && i < |Aggregate(rules, channels)|
    ensures var cs := Aggregate(rules, channels);
            && AscendingIds(cs[i].ids) && cs[i].ids != []
            && cs[i].name == (if FirstName(cs[i].names) != "" then FirstName(cs[i].names) else cs[i].baseUrl)
            && forall j :: i < j < |cs| ==> cs[j].ids != [] && cs[i].ids[0] < cs[j].ids[0]
  {
    GroupedInOrder(rules, channels, if channels == [] then 0 else channels[|channels| - 1].id + 1);
    var groups := Grouped(rules, channels);
    forall j | 0 <= j < |groups| ensures Aggregate(rules, channels)[j] == Named(groups[j]) {}
  }

  /** A channel that comes up again adds no position: it only fills in a name or URL that was missing. */
  lemma RepeatedChannelFillsIn(c: Candidate, id: nat, name: string, url: string)
    requires c.Aligned() && id in c.ids
    ensures var c', i := WithChannel(c, id, name, url), IndexOf(c.ids, id);
            && c'.ids == c.ids
            && (forall m :: 0 <= m < |c.ids| && m != i ==> c'.names[m] == c.names[m] && c'.urls[m] == c.urls[m])
            && c'.names[i] == (if c.names[i] != "" then c.names[i] else name)
            && c'.urls[i] == (if c.urls[i] != "" then c.urls[i] else url)
            && c'.name == (if c.name != "" then c.name else name)
  {
  }

  // ---------------------------------------------------------------------------------------
  // _live_channel_urls_from_candidates
  // ---------------------------------------------------------------------------------------

  function LiveUrl(c: Candidate, m: nat): string {
    var own := if m < |c.urls| then Normalize(c.urls[m]) else "";
    if own != "" then own else Normalize(c.baseUrl)
  }

  function LiveOf(c: Candidate, n: nat): map<nat, string>
    requires n <= |c.ids|
  {
    if n == 0 then map[]
    else if c.ids[n - 1] <= 0 then LiveOf(c, n - 1)
    else LiveOf(c, n - 1)[c.ids[n - 1] := LiveUrl(c, n - 1)]
  }

  function LiveUrls(candidates: seq<Candidate>): map<nat, string>
  {
    if candidates == [] then map[]
    else
      var last := candidates[|candidates| - 1];
      LiveUrls(candidates[..|candidates| - 1]) + LiveOf(last, |last.ids|)
  }

  method LiveChannelUrls(candidates: seq<Candidate>) returns (live: map<nat, string>)
    ensures live == LiveUrls(candidates)
  {
    live := map[];
    for i := 0 to |candidates|
      invariant live == LiveUrls(candidates[..i])
    {
      live := AddLiveUrls(candidates[i], live);
      assert candidates[..i + 1][..i] == candidates[..i];
    }
    assert candidates[..|candidates|] == candidates;
  }

  /** The inner loop, over one candidate's channels. */
  method AddLiveUrls(c: Candidate, before: map<nat, string>) returns (live: map<nat, string>)
    ensures live == before + LiveOf(c, |c.ids|)
  {
    hide LiveUrl, Normalize;
    var url := Normalize(c.baseUrl);
    live := before;
    for m := 0 to |c.ids|
      invariant live == before + LiveOf(c, m)
    {
      if c.ids[m] > 0 {
        var own := if m < |c.urls| then Normalize(c.urls[m]) else "";
        var u := if own != "" then own else url;
        LiveUrlIs(c, m, u);
        live := live[c.ids[m] := u];
      }
    }
  }

  lemma LiveUrlIs(c: Candidate, m: nat, u: string)
    requires var own := if m < |c.urls| then Normalize(c.urls[m]) else "";
             u == if own != "" then own else Normalize(c.baseUrl)
    ensures u == LiveUrl(c, m)
  {
  }

  lemma {:induction false} LiveOfLookup(c: Candidate, n: nat, m: nat)
    requires m < n <= |c.ids| && Distinct(c.ids) && c.ids[m] > 0
    ensures c.ids[m] in LiveOf(c, n) && LiveOf(c, n)[c.ids[m]] == LiveUrl(c, m)
  {
    if m < n - 1 {
      LiveOfLookup(c, n - 1, m);
    }
  }

  lemma {:induction false} LiveOfKeys(c: Candidate, n: nat)
    requires n <= |c.ids|
    ensures forall id :: id in LiveOf(c, n) ==> id in c.ids && id > 0
  {
    if n > 0 {
      LiveOfKeys(c, n - 1);
    }
  }

  /** The live-URL table gives each channel of well-formed candidates its own URL ... */
  lemma {:induction false} LiveUrlsLookup(rules: UrlRules, candidates: seq<Candidate>, i: nat, m: nat)
    requires WellFormed(rules, candidates) && i < |candidates| && m < |candidates[i].ids|
    ensures candidates[i].ids[m] in LiveUrls(candidates)
    ensures LiveUrls(candidates)[candidates[i].ids[m]] == LiveUrl(candidates[i], m)
    decreases |candidates|
  {
    var prior, last := candidates[..|candidates| - 1], candidates[|candidates| - 1];
    var c := candidates[i];
    if i == |candidates| - 1 {
      LiveOfLookup(c, |c.ids|, m);
    } else {
      assert prior[i] == c;
      LiveUrlsLookup(rules, prior, i, m);
      LiveOfKeys(last, |last.ids|);
      assert Disjoint(c.ids, last.ids);
      assert c.ids[m] in c.ids;
    }
  }

  /** ... and lists no other channel, nor one without an id. */
  lemma {:induction false} LiveUrlsKeys(candidates: seq<Candidate>, id: nat)
    requires id in LiveUrls(candidates)
    ensures id > 0 && exists i :: 0 <= i < |candidates| && id in candidates[i].ids
    decreases |candidates|
  {
    var prior, last := candidates[..|candidates| - 1], candidates[|candidates| - 1];
    if id in LiveOf(last, |last.ids|) {
      LiveOfKeys(last, |last.ids|);
      assert id in candidates[|candidates| - 1].ids;
    } else {
      LiveUrlsKeys(prior, id);
      var i :| 0 <= i < |prior| && id in prior[i].ids;
      assert id in candidates[i].ids;
    }
  }

  /** Aggregation loses no channel's URL: the table maps each usable channel to its own URL, or to
      that of its candidate if its own is empty once normalized again. */
  lemma LiveUrlOfChannel(rules: UrlRules, channels: seq<Channel>, n: nat)
    requires NormalizedList(channels) && n < |channels| && rules.Usable(channels[n])
    ensures var live := LiveUrls(Aggregate(rules, channels));
            var own := Normalize(rules.ChannelUrl(channels[n]));
            && channels[n].id in live
            && (own != "" ==> live[channels[n].id] == own)
            && (own == "" ==> LivesAsCandidate(rules, Aggregate(rules, channels), channels[n], live[channels[n].id]))
  {
    AggregatePartitions(rules, channels);
    var cs := Aggregate(rules, channels);
    var i, m :| 0 <= i < |cs| && Carries(rules, cs[i], m, channels[n]);
    LiveUrlsLookup(rules, cs, i, m);
  }

  ghost predicate LivesAsCandidate(rules: UrlRules, cs: seq<Candidate>, ch: Channel, url: string) {
    exists i, m :: 0 <= i < |cs| && Carries(rules, cs[i], m, ch) && url == Normalize(cs[i].baseUrl)
  }

  /** A channel in the table is a usable channel of the list. */
  lemma LiveChannelIsUsable(rules: UrlRules, channels: seq<Channel>, id: nat)
    requires NormalizedList(channels) && id in LiveUrls(Aggregate(rules, channels))
    ensures exists n :: 0 <= n < |channels| && rules.Usable(channels[n]) && channels[n].id == id
  {
    AggregatePartitions(rules, channels);
    var cs := Aggregate(rules, channels);
    LiveUrlsKeys(cs, id);
    var i :| 0 <= i < |cs| && id in cs[i].ids;
    var m :| 0 <= m < |cs[i].ids| && cs[i].ids[m] == id;
    assert Sourced(rules, cs[i], m, channels);
    var n :| 0 <= n < |channels| && Carries(rules, cs[i], m, channels[n]);
  }
}
