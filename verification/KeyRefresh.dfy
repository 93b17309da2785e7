/** The scheduler of channel key refreshes: one key at a time, least recently fetched first, channels
    not covered by the current security proof before all others. */
module KeyRefresh {

  import opened Options

  type ChannelId = nat
  type Time = nat

  /** When each stored key was fetched; channels without a key are missing. */
  type Fetched = map<ChannelId, Time>

  const PROOF_BATCH_SIZE := 3

  /** The order of (key stored?, fetched at, id). */
  predicate Before(f: Fetched, a: ChannelId, b: ChannelId) {
    if a in f && b in f then f[a] < f[b] || (f[a] == f[b] && a < b)
    else if a in f then false
    else if b in f then true
    else a < b
  }

  /** Ids come sorted and without repetition. */
  ghost predicate Ascending(ids: seq<ChannelId>) {
    forall i, j :: 0 <= i < j < |ids| ==> ids[i] < ids[j]
  }

  predicate Outdated(f: Fetched, proof: Option<Time>, c: ChannelId) {
    proof.Some? && (c !in f || f[c] < proof.value)
  }

  /** The channels the current proof does not cover yet. */
  function Batch(f: Fetched, proof: Option<Time>, ids: seq<ChannelId>): seq<ChannelId> {
    if ids == [] then []
    else
      var rest := Batch(f, proof, ids[..|ids| - 1]);
      if Outdated(f, proof, ids[|ids| - 1]) then rest + [ids[|ids| - 1]] else rest
  }

  /** The channel comes first among those listed. */
  ghost predicate Least(f: Fetched, ids: seq<ChannelId>, c: ChannelId) {
    c in ids && forall i :: 0 <= i < |ids| && ids[i] != c ==> Before(f, c, ids[i])
  }

  function Pick(f: Fetched, ids: seq<ChannelId>): (c: ChannelId)
    requires ids != []
    ensures c in ids
  {
    var n := |ids| - 1;
    if n == 0 then ids[0]
    else
      var best := Pick(f, ids[..n]);
      if Before(f, ids[n], best) then ids[n] else best
  }

  /** The channel the next refresh reads. */
  function Chosen(f: Fetched, proof: Option<Time>, ids: seq<ChannelId>): ChannelId
    requires ids != []
  {
    var batch := Batch(f, proof, ids);
    Pick(f, if batch != [] then batch else ids)
  }

  datatype Result = Result(success: bool, channel: Option<ChannelId>, batchRemaining: nat)

  class KeyTable {
    var fetched: Fetched

    method FindBatch(proof: Option<Time>, ids: seq<ChannelId>) returns (batch: seq<ChannelId>)
      ensures batch == Batch(fetched, proof, ids)
    {
      batch := [];
      for i := 0 to |ids|
        invariant batch == Batch(fetched, proof, ids[..i])
      {
        assert ids[..i + 1][..i] == ids[..i];
        if Outdated(fetched, proof, ids[i]) {
          batch := batch + [ids[i]];
        }
      }
      assert ids[..|ids|] == ids;
    }

    method FindLeast(ids: seq<ChannelId>) returns (c: ChannelId)
      requires ids != []
      ensures c == Pick(fetched, ids)
    {
      c := ids[0];
      assert ids[..1] == [ids[0]];
      for i := 1 to |ids|
        invariant c == Pick(fetched, ids[..i])
      {
        assert ids[..i + 1][..i] == ids[..i];
        if Before(fetched, ids[i], c) {
          c := ids[i];
        }
      }
      assert ids[..|ids|] == ids;
    }

    /** `refresh_next_admin_site_channel_key`: `stamp` is the time the key was stored, or nothing if
        it could not be read. */
    method RefreshNext(proof: Option<Time>, ids: seq<ChannelId>, stamp: Option<Time>) returns (r: Result)
      modifies this
      ensures ids == [] ==> r == Result(true, None, 0) && fetched == old(fetched)
      ensures ids != [] ==> r.channel == Some(Chosen(old(fetched), proof, ids)) && r.success == stamp.Some?
      ensures ids != [] ==>
        fetched == if stamp.Some? then old(fetched)[r.channel.value := stamp.value] else old(fetched)
      ensures ids != [] && stamp.Some? ==>
        var n := |Batch(old(fetched), proof, ids)|; r.batchRemaining == if n == 0 then 0 else n - 1
    {
      if ids == [] {
        return Result(true, None, 0);
      }
      var batch := FindBatch(proof, ids);
      var c := FindLeast(if batch != [] then batch else ids);
      if stamp.None? {
        return Result(false, Some(c), 0);
      }
      fetched := fetched[c := stamp.value];
      return Result(true, Some(c), if |batch| == 0 then 0 else |batch| - 1);
    }

    /** The refreshes of one due main site: more than one only while the proof batch lasts, and never more
        than three. */
    method RunDue(proof: Option<Time>, ids: seq<ChannelId>, stamps: seq<Option<Time>>)
      returns (r: Result, visited: seq<ChannelId>)
      requires |stamps| == PROOF_BATCH_SIZE
      modifies this
      ensures ids == [] ==> r == Result(true, None, 0) && visited == [] && fetched == old(fetched)
      ensures ids != [] ==> 1 <= |visited| <= 3 && r.success == stamps[|visited| - 1].Some?
      ensures |visited| < 3 && r.success ==> r.batchRemaining == 0
      ensures ids != [] ==> WentOn(old(fetched), proof, ids, stamps, |visited|)
      ensures ids != [] && r.success ==>
        1 <= |visited| <= 3
        && Tracks(old(fetched), proof, ids, stamps[..|visited|], fetched, visited)
        && r.batchRemaining == Left(old(fetched), proof, ids, stamps[..|visited|])
      ensures ids != [] && !r.success ==>
        1 <= |visited| <= 3
        && Tracks(old(fetched), proof, ids, stamps[..|visited| - 1], fetched, visited[..|visited| - 1])
        && visited[|visited| - 1] == Chosen(fetched, proof, ids)
      ensures Ascending(ids) && ids != [] && FreshStamps(proof, stamps) ==>
        var n := |Uncovered(old(fetched), proof, ids)|; |visited| == if n <= 1 then 1 else if n >= 3 then 3 else n
    {
      hide Chosen, Batch, Tracks, Left, WentOn, Uncovered;
      ghost var before := fetched;
      r := RefreshNext(proof, ids, stamps[0]);
      if ids == [] {
        return r, [];
      }
      visited := [r.channel.value];
      assert stamps[..0] == [] && visited[..0] == [];
      NothingYet(before, proof, ids, stamps);
      if r.success {
        OneMoreRefresh(before, proof, ids, [], stamps[0], before, []);
        assert stamps[..1] == [] + [stamps[0]] && visited == [] + visited;
      }
      while r.success && r.batchRemaining > 0 && |visited| < PROOF_BATCH_SIZE
        invariant 1 <= |visited| <= PROOF_BATCH_SIZE
        invariant r.success == stamps[|visited| - 1].Some?
        invariant WentOn(before, proof, ids, stamps, |visited|)
        invariant r.success ==>
          AllSome(stamps[..|visited|]) && Tracks(before, proof, ids, stamps[..|visited|], fetched, visited)
          && r.batchRemaining == Left(before, proof, ids, stamps[..|visited|])
        invariant !r.success ==>
          Tracks(before, proof, ids, stamps[..|visited| - 1], fetched, visited[..|visited| - 1])
          && visited[|visited| - 1] == Chosen(fetched, proof, ids)
        decreases PROOF_BATCH_SIZE - |visited|
      {
        var n := |visited|;
        ghost var was, seen := fetched, visited;
        WentOnOnce(before, proof, ids, stamps, n);
        r := RefreshNext(proof, ids, stamps[n]);
        visited := visited + [r.channel.value];
        assert visited[..n] == seen;
        if r.success {
          OneMoreRefresh(before, proof, ids, stamps[..n], stamps[n], was, seen);
          assert stamps[..n + 1] == stamps[..n] + [stamps[n]];
        }
      }
      if Ascending(ids) && FreshStamps(proof, stamps) {
        DueVisits(before, proof, ids, stamps, |visited|);
      }
    }
  }

  /** One successful refresh: the proof at the time, and when the key was stored. */
  datatype Refresh = Refresh(proof: Option<Time>, stamp: Time)

  /** A run of successful refreshes, and the channels it visited. */
  function Refreshed(f: Fetched, ids: seq<ChannelId>, run: seq<Refresh>): (r: (Fetched, seq<ChannelId>))
    requires ids != []
    ensures |r.1| == |run|
  {
    if run == [] then (f, [])
    else
      var n := |run| - 1;
      var prev := Refreshed(f, ids, run[..n]);
      var c := Chosen(prev.0, run[n].proof, ids);
      (prev.0[c := run[n].stamp], prev.1 + [c])
  }

  predicate AllSome(stamps: seq<Option<Time>>) {
    forall k :: 0 <= k < |stamps| ==> stamps[k].Some?
  }

  /** The refreshes of one due run work with one proof. */
  function UnderProof(proof: Option<Time>, stamps: seq<Option<Time>>): (r: seq<Refresh>)
    requires AllSome(stamps)
    ensures |r| == |stamps|
  {
    if stamps == [] then []
    else UnderProof(proof, stamps[..|stamps| - 1]) + [Refresh(proof, stamps[|stamps| - 1].value)]
  }

  /** All refreshes so far succeeded; they led from `f` to `now` and visited these channels. */
  ghost predicate Tracks(f: Fetched, proof: Option<Time>, ids: seq<ChannelId>, done: seq<Option<Time>>,
                         now: Fetched, visited: seq<ChannelId>)
    requires ids != []
  {
    AllSome(done) && Refreshed(f, ids, UnderProof(proof, done)) == (now, visited)
  }

  /** How many channels of the batch are left after these refreshes, as the last of them reports it. */
  function Left(f: Fetched, proof: Option<Time>, ids: seq<ChannelId>, done: seq<Option<Time>>): nat
    requires ids != [] && done != [] && AllSome(done)
  {
    var n := |Batch(Refreshed(f, ids, UnderProof(proof, done[..|done| - 1])).0, proof, ids)|;
    if n == 0 then 0 else n - 1
  }

  /** Each refresh but the first came because the one before it succeeded and left some of the batch. */
  ghost predicate WentOn(f: Fetched, proof: Option<Time>, ids: seq<ChannelId>, stamps: seq<Option<Time>>, visits: nat)
    requires ids != [] && visits <= |stamps|
  {
    forall m :: 1 <= m < visits ==> AllSome(stamps[..m]) && Left(f, proof, ids, stamps[..m]) > 0
  }

  lemma NothingYet(f: Fetched, proof: Option<Time>, ids: seq<ChannelId>, stamps: seq<Option<Time>>)
    requires ids != [] && stamps != []
    ensures Tracks(f, proof, ids, [], f, []) && WentOn(f, proof, ids, stamps, 1)
  {
  }

  lemma WentOnOnce(f: Fetched, proof: Option<Time>, ids: seq<ChannelId>, stamps: seq<Option<Time>>, visits: nat)
    requires ids != [] && 1 <= visits < |stamps| && WentOn(f, proof, ids, stamps, visits)
    requires AllSome(stamps[..visits]) && Left(f, proof, ids, stamps[..visits]) > 0
    ensures WentOn(f, proof, ids, stamps, visits + 1)
  {
  }

  lemma OneMoreRefresh(f: Fetched, proof: Option<Time>, ids: seq<ChannelId>, done: seq<Option<Time>>,
                       stamp: Option<Time>, now: Fetched, visited: seq<ChannelId>)
    requires ids != [] && Tracks(f, proof, ids, done, now, visited) && stamp.Some?
    ensures AllSome(done + [stamp])
    ensures var c, n := Chosen(now, proof, ids), |Batch(now, proof, ids)|;
            && Tracks(f, proof, ids, done + [stamp], now[c := stamp.value], visited + [c])
            && Left(f, proof, ids, done + [stamp]) == if n == 0 then 0 else n - 1
  {
    hide Chosen;
    var all := done + [stamp];
    assert all[..|all| - 1] == done;
    var run := UnderProof(proof, all);
    assert run[..|run| - 1] == UnderProof(proof, done);
  }

  // ---------------------------------------------------------------------------------------
  // The proof batch
  // ---------------------------------------------------------------------------------------

  lemma {:induction false} PickIsLeast(f: Fetched, ids: seq<ChannelId>)
    requires ids != []
    ensures Least(f, ids, Pick(f, ids))
  {
    var n := |ids| - 1;
    if n > 0 {
      PickIsLeast(f, ids[..n]);
      var best, c := Pick(f, ids[..n]), Pick(f, ids);
      assert ids == ids[..n] + [ids[n]];
      forall i | 0 <= i < |ids| && ids[i] != c ensures Before(f, c, ids[i]) {
        if i < n { assert ids[..n][i] == ids[i]; }
      }
    }
  }

  lemma LeastIsUnique(f: Fetched, ids: seq<ChannelId>, a: ChannelId, b: ChannelId)
    requires Least(f, ids, a) && Least(f, ids, b)
    ensures a == b
  {
  }

  lemma {:induction false} BatchIff(f: Fetched, proof: Option<Time>, ids: seq<ChannelId>, c: ChannelId)
    ensures c in Batch(f, proof, ids) <==> c in ids && Outdated(f, proof, c)
  {
    if ids != [] {
      var n := |ids| - 1;
      BatchIff(f, proof, ids[..n], c);
      assert ids == ids[..n] + [ids[n]];
    }
  }

  /** Restricting the choice to the proof batch never changes the channel chosen. */
  lemma BatchKeepsChoice(f: Fetched, proof: Option<Time>, ids: seq<ChannelId>)
    requires ids != []
    ensures Chosen(f, proof, ids) == Pick(f, ids)
    ensures Least(f, ids, Chosen(f, proof, ids))
  {
    PickIsLeast(f, ids);
    var batch := Batch(f, proof, ids);
    if batch != [] {
      PickIsLeast(f, batch);
      var c := Pick(f, batch);
      BatchIff(f, proof, ids, c);
      forall i | 0 <= i < |ids| && ids[i] != c ensures Before(f, c, ids[i]) {
        BatchIff(f, proof, ids, ids[i]);
        if ids[i] in batch {
          var j :| 0 <= j < |batch| && batch[j] == ids[i];
        }
      }
      LeastIsUnique(f, ids, c, Pick(f, ids));
    }
  }

  /** Refreshing a channel with a stamp the proof covers takes it out of the batch, and nothing else
      changes; with an older stamp it stays (or comes back). */
  lemma {:induction false} BatchAfter(f: Fetched, proof: Option<Time>, ids: seq<ChannelId>, c: ChannelId, stamp: Time)
    requires Ascending(ids)
    ensures var was, now := Batch(f, proof, ids), Batch(f[c := stamp], proof, ids);
            var gone := if c in ids && Outdated(f, proof, c) then 1 else 0;
            var back := if c in ids && proof.Some? && stamp < proof.value then 1 else 0;
            |now| == |was| - gone + back
  {
    if ids != [] {
      var n := |ids| - 1;
      BatchAfter(f, proof, ids[..n], c, stamp);
      assert ids == ids[..n] + [ids[n]];
      assert ids[n] !in ids[..n];
    }
  }

  /** The reported `batch_remaining` is the size of the next batch, exactly if there is no proof or
      the new stamp is not older than it. */
  lemma RemainingIff(f: Fetched, proof: Option<Time>, ids: seq<ChannelId>, stamp: Time)
    requires ids != [] && Ascending(ids)
    ensures var n := |Batch(f, proof, ids)|;
            var next := |Batch(f[Chosen(f, proof, ids) := stamp], proof, ids)|;
            (if n == 0 then 0 else n - 1) == next <==> (proof.None? || proof.value <= stamp)
  {
    var c := Chosen(f, proof, ids);
    BatchKeepsChoice(f, proof, ids);
    BatchAfter(f, proof, ids, c, stamp);
    BatchIff(f, proof, ids, c);
    var batch := Batch(f, proof, ids);
    if batch != [] {
      PickIsLeast(f, batch);
    }
    if proof.None? {
      NoBatch(f, ids);
    }
  }

  /** The channels the proof does not cover. */
  function Uncovered(f: Fetched, proof: Option<Time>, ids: seq<ChannelId>): set<ChannelId> {
    set c | c in ids && proof.Some? && (c !in f || f[c] < proof.value)
  }

  lemma UncoveredGrows(f: Fetched, proof: Option<Time>, ids: seq<ChannelId>, c: ChannelId)
    requires c !in ids
    ensures |Uncovered(f, proof, ids + [c])|
      == |Uncovered(f, proof, ids)| + if proof.Some? && (c !in f || f[c] < proof.value) then 1 else 0
  {
    var was := Uncovered(f, proof, ids);
    if proof.Some? && (c !in f || f[c] < proof.value) {
      assert Uncovered(f, proof, ids + [c]) == was + {c};
    } else {
      assert Uncovered(f, proof, ids + [c]) == was;
    }
  }

  lemma {:induction false} BatchSize(f: Fetched, proof: Option<Time>, ids: seq<ChannelId>)
    requires Ascending(ids)
    ensures |Batch(f, proof, ids)| == |Uncovered(f, proof, ids)|
  {
    if ids == [] {
      assert Uncovered(f, proof, ids) == {};
    } else {
      hide Uncovered;
      var n := |ids| - 1;
      BatchSize(f, proof, ids[..n]);
      UncoveredGrows(f, proof, ids[..n], ids[n]);
      assert ids == ids[..n] + [ids[n]];
    }
  }

  /** These stamps are those of keys read under the proof, so none is older than it. */
  ghost predicate FreshStamps(proof: Option<Time>, stamps: seq<Option<Time>>) {
    forall k :: 0 <= k < |stamps| ==> stamps[k].Some? && (proof.Some? ==> proof.value <= stamps[k].value)
  }

  lemma {:induction false} BatchShrinks(f: Fetched, proof: Option<Time>, ids: seq<ChannelId>, done: seq<Option<Time>>)
    requires Ascending(ids) && ids != [] && FreshStamps(proof, done)
    ensures AllSome(done)
    ensures var n := |Batch(f, proof, ids)|;
            |Batch(Refreshed(f, ids, UnderProof(proof, done)).0, proof, ids)| == if n < |done| then 0 else n - |done|
  {
    if done != [] {
      var k := |done| - 1;
      BatchShrinks(f, proof, ids, done[..k]);
      var run := UnderProof(proof, done);
      assert run[..k] == UnderProof(proof, done[..k]) && run[k] == Refresh(proof, done[k].value);
      var mid := Refreshed(f, ids, run[..k]).0;
      hide Batch, Chosen;
      RemainingIs(mid, proof, ids, done[k].value);
    }
  }

  lemma RemainingIs(f: Fetched, proof: Option<Time>, ids: seq<ChannelId>, stamp: Time)
    requires ids != [] && Ascending(ids) && (proof.Some? ==> proof.value <= stamp)
    ensures var n := |Batch(f, proof, ids)|;
            |Batch(f[Chosen(f, proof, ids) := stamp], proof, ids)| == if n == 0 then 0 else n - 1
  {
    hide Batch, Chosen;
    RemainingIff(f, proof, ids, stamp);
  }

  lemma FreshPrefix(proof: Option<Time>, stamps: seq<Option<Time>>, m: nat)
    requires FreshStamps(proof, stamps) && m <= |stamps|
    ensures FreshStamps(proof, stamps[..m]) && AllSome(stamps[..m])
  {
  }

  lemma LeftIs(f: Fetched, proof: Option<Time>, ids: seq<ChannelId>, stamps: seq<Option<Time>>, m: nat)
    requires Ascending(ids) && ids != [] && FreshStamps(proof, stamps) && 1 <= m <= |stamps|
    ensures AllSome(stamps[..m])
    ensures var n := |Uncovered(f, proof, ids)|; Left(f, proof, ids, stamps[..m]) == if n < m then 0 else n - m
  {
    BatchSize(f, proof, ids);
    FreshPrefix(proof, stamps, m);
    FreshPrefix(proof, stamps, m - 1);
    hide Batch, Uncovered, Refreshed, FreshStamps, AllSome, Ascending;
    assert stamps[..m][..m - 1] == stamps[..m - 1];
    BatchShrinks(f, proof, ids, stamps[..m - 1]);
  }

  /** A due run that reads every key it tries refreshes as many keys as the proof does not cover: at least
      one, at most three. */
  lemma DueVisits(f: Fetched, proof: Option<Time>, ids: seq<ChannelId>, stamps: seq<Option<Time>>, visits: nat)
    requires Ascending(ids) && ids != [] && |stamps| == 3 && FreshStamps(proof, stamps) && 1 <= visits <= 3
    requires WentOn(f, proof, ids, stamps, visits)
    requires AllSome(stamps[..visits]) && (visits < 3 ==> Left(f, proof, ids, stamps[..visits]) == 0)
    ensures var n := |Uncovered(f, proof, ids)|; visits == if n <= 1 then 1 else if n >= 3 then 3 else n
  {
    LeftIs(f, proof, ids, stamps, visits);
    if visits > 1 {
      LeftIs(f, proof, ids, stamps, visits - 1);
      assert Left(f, proof, ids, stamps[..visits - 1]) > 0;
    }
  }

  lemma {:induction false} NoBatch(f: Fetched, ids: seq<ChannelId>)
    ensures Batch(f, None, ids) == []
  {
    if ids != [] { NoBatch(f, ids[..|ids| - 1]); }
  }

  // ---------------------------------------------------------------------------------------
  // Round robin
  // ---------------------------------------------------------------------------------------

  ghost predicate Distinct(ids: seq<ChannelId>) {
    forall i, j :: 0 <= i < j < |ids| ==> ids[i] != ids[j]
  }

  function Without(ids: seq<ChannelId>, c: ChannelId): (r: seq<ChannelId>)
    ensures |r| <= |ids|
    ensures c in ids ==> |r| < |ids|
    ensures forall d :: d in r <==> d in ids && d != c
    ensures c !in ids ==> r == ids
    ensures Distinct(ids) ==> Distinct(r)
    ensures Distinct(ids) && c in ids ==> |r| == |ids| - 1
  {
    if ids == [] then []
    else
      var n := |ids| - 1;
      assert ids == ids[..n] + [ids[n]];
      assert Distinct(ids) ==> Distinct(ids[..n]) && ids[n] !in ids[..n];
      if ids[n] == c then Without(ids[..n], c) else Without(ids[..n], c) + [ids[n]]
  }

  /** The channels in the order of (key stored?, fetched at, id). */
  function Order(f: Fetched, ids: seq<ChannelId>): (r: seq<ChannelId>)
    ensures Distinct(ids) ==> |r| == |ids|
    decreases |ids|
  {
    if ids == [] then [] else [Pick(f, ids)] + Order(f, Without(ids, Pick(f, ids)))
  }

  ghost predicate Sorted(f: Fetched, ids: seq<ChannelId>, o: seq<ChannelId>) {
    && |o| == |ids| && Distinct(o)
    && (forall c :: c in o <==> c in ids)
    && (forall i, j :: 0 <= i < j < |o| ==> Before(f, o[i], o[j]))
  }

  lemma {:induction false} OrderIsSorted(f: Fetched, ids: seq<ChannelId>)
    requires Distinct(ids)
    ensures Sorted(f, ids, Order(f, ids))
    decreases |ids|
  {
    if ids != [] {
      var c := Pick(f, ids);
      var rest := Order(f, Without(ids, c));
      OrderIsSorted(f, Without(ids, c));
      PickIsLeast(f, ids);
      SortedFront(f, ids, c, rest);
    }
  }

  lemma SortedFront(f: Fetched, ids: seq<ChannelId>, c: ChannelId, rest: seq<ChannelId>)
    requires Distinct(ids) && Least(f, ids, c) && Sorted(f, Without(ids, c), rest)
    ensures Sorted(f, ids, [c] + rest)
  {
    var o := [c] + rest;
    forall j | 1 <= j < |o| ensures Before(f, c, o[j]) && o[j] != c {
      assert o[j] in rest;
      var i :| 0 <= i < |ids| && ids[i] == o[j];
    }
  }

  /** No refresh is stamped earlier than the one before it or than any key stored at the start. */
  ghost predicate NotOlder(f: Fetched, ids: seq<ChannelId>, run: seq<Refresh>) {
    && (forall k, c :: 0 <= k < |run| && c in ids && c in f ==> f[c] <= run[k].stamp)
    && (forall j, k :: 0 <= j < k < |run| ==> run[j].stamp <= run[k].stamp)
  }

  /** The refresh of `o[j]` got the very stamp that `o[k]`, still to come, has from before, and `o[j]`
      has the smaller id. */
  predicate Tie(f: Fetched, o: seq<ChannelId>, run: seq<Refresh>, j: nat, k: nat)
    requires j < k < |o| && j < |run|
  {
    o[k] in f && run[j].stamp == f[o[k]] && o[j] < o[k]
  }

  /** Channel `o[k]` is tied with one refreshed before. */
  ghost predicate Tied(f: Fetched, o: seq<ChannelId>, run: seq<Refresh>, k: nat)
    requires k < |o| && k <= |run|
  {
    exists j :: 0 <= j < k && Tie(f, o, run, j, k)
  }

  ghost predicate NoTies(f: Fetched, o: seq<ChannelId>, run: seq<Refresh>)
    requires |run| <= |o|
  {
    forall k :: 0 <= k < |run| ==> !Tied(f, o, run, k)
  }

  /** The first channels of the order carry the new stamps, the others what they had. */
  ghost predicate Stamped(f: Fetched, now: Fetched, o: seq<ChannelId>, run: seq<Refresh>)
    requires |run| <= |o|
  {
    && (forall j :: 0 <= j < |run| ==> o[j] in now && now[o[j]] == run[j].stamp)
    && (forall i :: |run| <= i < |o| ==> (o[i] in now <==> o[i] in f) && (o[i] in f ==> now[o[i]] == f[o[i]]))
  }

  /** Of the channels still to come, the next in the order is the first. */
  lemma NextIsFirstLeft(f: Fetched, now: Fetched, ids: seq<ChannelId>, o: seq<ChannelId>, done: seq<Refresh>, q: nat)
    requires |done| < q < |o| && Sorted(f, ids, o) && Stamped(f, now, o, done)
    ensures !Before(now, o[q], o[|done|])
  {
    assert Before(f, o[|done|], o[q]);
  }

  /** The next in the order is chosen next, unless a tie brings an earlier one back. */
  lemma NextInOrderIff(f: Fetched, now: Fetched, ids: seq<ChannelId>, o: seq<ChannelId>, done: seq<Refresh>, c: ChannelId)
    requires Sorted(f, ids, o) && NotOlder(f, ids, done) && |done| < |o|
    requires Stamped(f, now, o, done) && Least(now, ids, c)
    ensures if Tied(f, o, done, |done|) then c in o[..|done|] else c == o[|done|]
  {
    var n := |done|;
    var p :| 0 <= p < |o| && o[p] == c;
    if p != n {
      assert o[n] in ids;
      var i :| 0 <= i < |ids| && ids[i] == o[n];
      assert Before(now, c, o[n]);
      if p > n { NextIsFirstLeft(f, now, ids, o, done, p); }
      EarlierIsTied(f, now, ids, o, done, p);
      assert o[..n][p] == c;
    } else {
      forall j | 0 <= j < n ensures !Tie(f, o, done, j, n) {
        assert o[j] in ids;
        var i :| 0 <= i < |ids| && ids[i] == o[j];
        assert Before(now, c, o[j]);
      }
    }
  }

  lemma EarlierIsTied(f: Fetched, now: Fetched, ids: seq<ChannelId>, o: seq<ChannelId>, done: seq<Refresh>, p: nat)
    requires p < |done| < |o| && Sorted(f, ids, o) && NotOlder(f, ids, done)
    requires Stamped(f, now, o, done) && Before(now, o[p], o[|done|])
    ensures Tied(f, o, done, |done|)
  {
    assert o[|done|] in ids;
    assert Tie(f, o, done, p, |done|);
  }

  lemma StampedOneMore(f: Fetched, now: Fetched, o: seq<ChannelId>, run: seq<Refresh>)
    requires 0 < |run| <= |o| && Distinct(o) && Stamped(f, now, o, run[..|run| - 1])
    ensures Stamped(f, now[o[|run| - 1] := run[|run| - 1].stamp], o, run)
  {
  }

  /** As long as there is no tie the visits follow the order; a tie makes some visit a repetition. */
  lemma {:induction false} VisitsFollowOrder(f: Fetched, ids: seq<ChannelId>, o: seq<ChannelId>, run: seq<Refresh>)
    requires ids != [] && Sorted(f, ids, o) && |run| <= |o| && NotOlder(f, ids, run)
    ensures NoTies(f, o, run) ==> Refreshed(f, ids, run).1 == o[..|run|] && Stamped(f, Refreshed(f, ids, run).0, o, run)
    ensures !NoTies(f, o, run) ==> !Distinct(Refreshed(f, ids, run).1)
  {
    if run != [] {
      var n := |run| - 1;
      VisitsFollowOrder(f, ids, o, run[..n]);
      var prev := Refreshed(f, ids, run[..n]);
      var c := Chosen(prev.0, run[n].proof, ids);
      hide Chosen, Sorted, NotOlder, Stamped, Refreshed, Tied;
      RefreshedLast(f, ids, run);
      if NoTies(f, o, run[..n]) {
        BatchKeepsChoice(prev.0, run[n].proof, ids);
        NextVisit(f, ids, o, run, prev.0, c);
      } else {
        NoTiesIff(f, o, run);
        NotDistinctLonger(prev.1, c);
      }
    } else {
      assert o[..0] == [];
    }
  }

  lemma RefreshedLast(f: Fetched, ids: seq<ChannelId>, run: seq<Refresh>)
    requires ids != [] && run != []
    ensures var n := |run| - 1;
            var prev := Refreshed(f, ids, run[..n]);
            var c := Chosen(prev.0, run[n].proof, ids);
            Refreshed(f, ids, run) == (prev.0[c := run[n].stamp], prev.1 + [c])
  {
  }

  /** Whether a channel is tied depends on the refreshes before it only. */
  lemma TiedBefore(f: Fetched, o: seq<ChannelId>, run: seq<Refresh>, n: nat, k: nat)
    requires k <= n <= |run| && k < |o|
    ensures Tied(f, o, run, k) <==> Tied(f, o, run[..n], k)
  {
    if Tied(f, o, run, k) {
      var j :| 0 <= j < k && Tie(f, o, run, j, k);
      assert Tie(f, o, run[..n], j, k);
    }
    if Tied(f, o, run[..n], k) {
      var j :| 0 <= j < k && Tie(f, o, run[..n], j, k);
      assert Tie(f, o, run, j, k);
    }
  }

  lemma NoTiesIff(f: Fetched, o: seq<ChannelId>, run: seq<Refresh>)
    requires 0 < |run| <= |o|
    ensures NoTies(f, o, run) <==> NoTies(f, o, run[..|run| - 1]) && !Tied(f, o, run, |run| - 1)
  {
    forall k | 0 <= k < |run| ensures Tied(f, o, run, k) <==> Tied(f, o, run[..|run| - 1], k) {
      TiedBefore(f, o, run, |run| - 1, k);
    }
    var n := |run| - 1;
    if NoTies(f, o, run) {
      forall k | 0 <= k < n ensures !Tied(f, o, run[..n], k) {
        assert !Tied(f, o, run, k);
      }
    }
    if NoTies(f, o, run[..n]) && !Tied(f, o, run, n) {
      forall k | 0 <= k < |run| ensures !Tied(f, o, run, k) {
        assert k < n ==> !Tied(f, o, run[..n], k);
      }
    }
  }

  lemma NotDistinctLonger(visited: seq<ChannelId>, c: ChannelId)
    requires !Distinct(visited) || c in visited
    ensures !Distinct(visited + [c])
  {
    var all := visited + [c];
    if c in visited {
      var i :| 0 <= i < |visited| && visited[i] == c;
      assert all[i] == all[|visited|];
    } else {
      var i, j :| 0 <= i < j < |visited| && visited[i] == visited[j];
      assert all[i] == all[j];
    }
  }

  /** The induction step: without a tie so far, the next visit is the next in the order or a tie. */
  lemma NextVisit(f: Fetched, ids: seq<ChannelId>, o: seq<ChannelId>, run: seq<Refresh>, now: Fetched, c: ChannelId)
    requires Sorted(f, ids, o) && 0 < |run| <= |o| && NotOlder(f, ids, run)
    requires NoTies(f, o, run[..|run| - 1]) && Stamped(f, now, o, run[..|run| - 1]) && Least(now, ids, c)
    ensures var n := |run| - 1;
            && (NoTies(f, o, run) ==>
                  o[..n] + [c] == o[..|run|] && Stamped(f, now[c := run[n].stamp], o, run))
            && (!NoTies(f, o, run) ==> !Distinct(o[..n] + [c]))
  {
    var n := |run| - 1;
    var done := run[..n];
    NextInOrderIff(f, now, ids, o, done, c);
    TiedBefore(f, o, run, n, n);
    NoTiesIff(f, o, run);
    if Tied(f, o, run, n) {
      NotDistinctLonger(o[..n], c);
    } else {
      StampedOneMore(f, now, o, run);
    }
  }

  lemma AscendingIsDistinct(ids: seq<ChannelId>)
    requires Ascending(ids)
    ensures Distinct(ids)
  {
  }

  /** Any refreshes stamped no earlier than what is stored visit no channel twice, exactly if there is
      no tie: no refresh gets the stamp that a channel with a larger id, still to come, has already. */
  lemma NoRepetitionIff(f: Fetched, ids: seq<ChannelId>, run: seq<Refresh>)
    requires Ascending(ids) && ids != [] && |run| <= |ids| && NotOlder(f, ids, run)
    ensures |Order(f, ids)| == |ids|
    ensures Distinct(Refreshed(f, ids, run).1) <==> NoTies(f, Order(f, ids), run)
  {
    var o := Order(f, ids);
    AscendingIsDistinct(ids);
    OrderIsSorted(f, ids);
    VisitsFollowOrder(f, ids, o, run);
    if NoTies(f, o, run) {
      var visited := Refreshed(f, ids, run).1;
      forall i, j | 0 <= i < j < |visited| ensures visited[i] != visited[j] {
        assert visited[i] == o[i] && visited[j] == o[j];
      }
    }
  }

  /** Every refresh is stamped later than any key stored before it. */
  ghost predicate LaterStamps(f: Fetched, ids: seq<ChannelId>, run: seq<Refresh>) {
    && (forall k, c :: 0 <= k < |run| && c in ids && c in f ==> f[c] < run[k].stamp)
    && (forall j, k :: 0 <= j < k < |run| ==> run[j].stamp < run[k].stamp)
  }

  /** Over any `n` consecutive successful refreshes of `n` channels with rising stamps, each channel is
      visited exactly once, in the order of what had been fetched before, whatever the proofs. */
  lemma RoundRobin(f: Fetched, ids: seq<ChannelId>, run: seq<Refresh>)
    requires Ascending(ids) && ids != [] && |run| == |ids| && LaterStamps(f, ids, run)
    ensures Refreshed(f, ids, run).1 == Order(f, ids)
    ensures Sorted(f, ids, Order(f, ids))
  {
    var o := Order(f, ids);
    AscendingIsDistinct(ids);
    OrderIsSorted(f, ids);
    assert NotOlder(f, ids, run);
    forall k | 0 <= k < |run| ensures !Tied(f, o, run, k) {
      assert o[k] in ids;
    }
    VisitsFollowOrder(f, ids, o, run);
    assert o[..|run|] == o;
  }

  /** Stamps have whole seconds.  A refresh that gets the very stamp of the channel next in line, and
      whose channel has the smaller id, is repeated: the next refresh, however late, reads the same
      channel again. */
  lemma EqualStampRepeats(f: Fetched, ids: seq<ChannelId>, first: Refresh, second: Refresh)
    requires Ascending(ids) && 2 <= |ids|
    requires var o := Order(f, ids); o[1] in f && first.stamp == f[o[1]] && o[0] < o[1]
    ensures var a := Order(f, ids)[0]; Refreshed(f, ids, [first, second]).1 == [a, a]
  {
    var o := Order(f, ids);
    AscendingIsDistinct(ids);
    OrderIsSorted(f, ids);
    var a, g := o[0], f[o[0] := first.stamp];
    hide Chosen, Order;
    BatchKeepsChoice(f, first.proof, ids);
    BatchKeepsChoice(g, second.proof, ids);
    FirstOfOrder(f, ids, o);
    StillFirst(f, ids, o, first.stamp);
    LeastIsUnique(f, ids, Chosen(f, first.proof, ids), a);
    LeastIsUnique(g, ids, Chosen(g, second.proof, ids), a);
    hide Least, Sorted;
    assert [first, second][..1] == [first] && [first][..0] == [];
    assert Refreshed(f, ids, []) == (f, []);
    assert Refreshed(f, ids, [first]) == (g, [] + [a]);
    assert Refreshed(f, ids, [first, second]).1 == [] + [a] + [a];
  }

  lemma FirstOfOrder(f: Fetched, ids: seq<ChannelId>, o: seq<ChannelId>)
    requires Sorted(f, ids, o) && o != []
    ensures Least(f, ids, o[0])
  {
    forall i | 0 <= i < |ids| && ids[i] != o[0] ensures Before(f, o[0], ids[i]) {
      assert ids[i] in o;
      var j :| 0 <= j < |o| && o[j] == ids[i];
    }
  }

  lemma StillFirst(f: Fetched, ids: seq<ChannelId>, o: seq<ChannelId>, stamp: Time)
    requires Sorted(f, ids, o) && 2 <= |o| && o[1] in f && stamp == f[o[1]] && o[0] < o[1]
    ensures Least(f[o[0] := stamp], ids, o[0])
  {
    var g := f[o[0] := stamp];
    forall i | 0 <= i < |ids| && ids[i] != o[0] ensures Before(g, o[0], ids[i]) {
      assert ids[i] in o;
      var j :| 0 <= j < |o| && o[j] == ids[i];
      assert j == 1 || Before(f, o[1], o[j]);
    }
  }
}
