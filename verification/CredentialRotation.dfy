/** The credentials of a sub2api monitoring site: one run tries the access token, then the refresh
    token, then the password, and writes what it obtained back by compare-and-swap.  Runs of one site
    hold the site's lock; other writers of the row do not.

    Tokens are numbers in the order the upstream issues them; 0 is the empty string. */
module CredentialRotation {

  import opened Options

  type Token = nat

  const EMPTY: Token := 0

  datatype Pair = Pair(access: Token, refresh: Token)

  /** How a failed upstream call is classified. */
  datatype Category = Auth | Waf | Interactive | OtherFailure

  datatype Mode = PasswordMode | TokenMode | BrowserMode

  /** The columns of `sites`; None is NULL. */
  datatype Row = Row(mode: Mode, access: Option<Token>, refresh: Option<Token>, ready: bool)
  {
    /** COALESCE(access_token, '') and COALESCE(refresh_token, '') */
    function Held(): Pair {
      Pair(if access.Some? then access.value else EMPTY, if refresh.Some? then refresh.value else EMPTY)
    }
  }

  /** The upstream: the newest credentials it issued to the site, and its supply of fresh tokens.  It
      accepts the newest refresh token only, which may or may not be good for one use. */
  datatype Upstream = Upstream(live: Pair, next: Token)

  /** The sites row (None once deleted), the upstream, and the short-lived cache of refresh results. */
  datatype World = World(row: Option<Row>, up: Upstream, cache: map<Token, Pair>)

  datatype Fetched = FetchOk | FetchFailed(category: Category)

  datatype Refreshed = RefreshOk(pair: Pair) | RefreshFailed(category: Category)

  datatype Foreign = Nothing | Writes(row: Option<Row>)

  /** Everything the run does not decide: the outcome of each call, whether a cached refresh result
      is still young enough, and what others write to the row in front of each of its own writes. */
  datatype Choices = Choices(
    firstFetch: Fetched,
    cacheYoung: bool,
    refreshFails: Option<Category>,
    withholdsAccess: bool,
    keepsRefresh: bool,
    secondFetch: Fetched,
    foreign1: Foreign,
    loginFails: Option<Category>,
    loginGivesRefresh: bool,
    thirdFetch: Fetched,
    foreign2: Foreign)

  /** What the caller passed: the tokens it read earlier, and whether it has a user and password. */
  datatype Args = Args(mode: Mode, pair: Pair, canLogin: bool)

  function ModeOf(row: Option<Row>, args: Args): Mode {
    if row.Some? then row.value.mode else args.mode
  }

  /** `site_snapshot`: the row's values, the caller's where the row has NULL or is gone. */
  function Snapshot(row: Option<Row>, args: Args): Pair {
    if row.None? then args.pair
    else
      Pair(if row.value.access.Some? then row.value.access.value else args.pair.access,
           if row.value.refresh.Some? then row.value.refresh.value else args.pair.refresh)
  }

  function Overwritten(column: Option<Token>, token: Token): Option<Token> {
    if token != EMPTY then Some(token) else column
  }

  /** `persist_sub2api_refreshed_auth` */
  function Persisted(row: Option<Row>, auth: Pair, expected: Pair, restore: bool): Option<Row> {
    if row.None? || (restore && !row.value.mode.BrowserMode?) || row.value.Held() != expected then row
    else
      Some(row.value.(access := Overwritten(row.value.access, auth.access),
                      refresh := Overwritten(row.value.refresh, auth.refresh),
                      ready := restore || row.value.ready))
  }

  function After(row: Option<Row>, f: Foreign): Option<Row> {
    if f.Writes? then f.row else row
  }

  /** The upstream is asked, and honours the refresh token. */
  predicate UsesRefresh(w: World, token: Token, ch: Choices) {
    !(token in w.cache && ch.cacheYoung) && ch.refreshFails.None? && token == w.up.live.refresh
  }

  /** `refresh_sub2api_auth`: a young cached result is shared; otherwise the upstream issues an access
      token (unless it withholds it) and a refresh token (unless it keeps the old one). */
  function RefreshReply(w: World, token: Token, ch: Choices): (World, Refreshed) {
    if token in w.cache && ch.cacheYoung then (w, RefreshOk(w.cache[token]))
    else if ch.refreshFails.Some? then (w, RefreshFailed(ch.refreshFails.value))
    else if token != w.up.live.refresh then (w, RefreshFailed(Auth))
    else
      var n := w.up.next;
      var issued := Pair(if ch.withholdsAccess then EMPTY else n, if ch.keepsRefresh then EMPTY else n + 1);
      (w.(up := Upstream(Merged(w.up.live, issued), n + 2), cache := w.cache[token := issued]), RefreshOk(issued))
  }

  /** What was not issued stays as it was. */
  function Merged(live: Pair, issued: Pair): Pair {
    Pair(if issued.access != EMPTY then issued.access else live.access,
         if issued.refresh != EMPTY then issued.refresh else live.refresh)
  }

  function Rotated(issued: Pair, current: Token): Pair {
    Pair(issued.access, if issued.refresh != EMPTY then issued.refresh else current)
  }

  /** A login issues a new access token and, as the upstream pleases, a new refresh token. */
  function LoggedIn(up: Upstream, ch: Choices): (Upstream, Pair) {
    var auth := Pair(up.next, if ch.loginGivesRefresh then up.next + 1 else EMPTY);
    (Upstream(Pair(auth.access, if ch.loginGivesRefresh then auth.refresh else up.live.refresh), up.next + 2), auth)
  }

  /** The password step, with the pair the row is expected to hold. */
  function PasswordStep(w: World, current: Pair, canLogin: bool, ch: Choices): World {
    if !canLogin || ch.loginFails.Some? then w
    else
      var (up, auth) := LoggedIn(w.up, ch);
      w.(up := up, row := Persisted(After(w.row, ch.foreign2), auth, current, ch.thirdFetch.FetchOk?))
  }

  /** What follows a successful refresh. */
  function RotatedStep(w: World, issued: Pair, current: Pair, mode: Mode, canLogin: bool, ch: Choices): World {
    if issued.access == EMPTY then w
    else
      var rotated := Rotated(issued, current.refresh);
      var w1 := w.(row := Persisted(After(w.row, ch.foreign1), rotated, current, ch.secondFetch.FetchOk?));
      if ch.secondFetch.FetchOk? || !ch.secondFetch.category.Auth? || mode.TokenMode? then w1
      else PasswordStep(w1, rotated, canLogin, ch)
  }

  /** The refresh step. */
  function RefreshStep(w: World, current: Pair, mode: Mode, canLogin: bool, ch: Choices): World {
    var (w1, r) := RefreshReply(w, current.refresh, ch);
    if r.RefreshOk? then RotatedStep(w1, r.pair, current, mode, canLogin, ch)
    else if mode.TokenMode? || !r.category.Auth? then w1
    else PasswordStep(w1, current, canLogin, ch)
  }

  /** `_fetch_sub2api_with_auth_fallback`, for a stored site. */
  function Ran(w: World, args: Args, ch: Choices): World {
    var mode := ModeOf(w.row, args);
    var current := Snapshot(w.row, args);
    if mode.PasswordMode? then
      if !args.canLogin || ch.loginFails.Some? then w else w.(up := LoggedIn(w.up, ch).0)
    else if current.access != EMPTY && (ch.firstFetch.FetchOk? || !ch.firstFetch.category.Auth?) then w
    else if current.refresh != EMPTY then RefreshStep(w, current, mode, args.canLogin, ch)
    else if mode.TokenMode? then w
    else PasswordStep(w, current, args.canLogin, ch)
  }

  /** A site's row, its upstream and the refresh cache, as the program and the upstream update them. */
  class Session {
    var row: Option<Row>
    var up: Upstream
    var cache: map<Token, Pair>

    function Contents(): World
      reads this
    {
      World(row, up, cache)
    }

    method Persist(auth: Pair, expected: Pair, restore: bool)
      modifies `row
      ensures row == Persisted(old(row), auth, expected, restore)
    {
      if row.None? || (restore && !row.value.mode.BrowserMode?) {
        return;
      }
      if row.value.Held() != expected {
        return;
      }
      var access := if auth.access != EMPTY then Some(auth.access) else row.value.access;
      var refresh := if auth.refresh != EMPTY then Some(auth.refresh) else row.value.refresh;
      row := Some(Row(row.value.mode, access, refresh, restore || row.value.ready));
    }

    method Refresh(token: Token, ch: Choices) returns (r: Refreshed)
      modifies `up, `cache
      ensures (Contents(), r) == RefreshReply(old(Contents()), token, ch)
    {
      if token in cache && ch.cacheYoung {
        return RefreshOk(cache[token]);
      }
      if ch.refreshFails.Some? {
        return RefreshFailed(ch.refreshFails.value);
      }
      if token != up.live.refresh {
        return RefreshFailed(Auth);
      }
      var n := up.next;
      var issued := Pair(if ch.withholdsAccess then EMPTY else n, if ch.keepsRefresh then EMPTY else n + 1);
      up := Upstream(Merged(up.live, issued), n + 2);
      cache := cache[token := issued];
      return RefreshOk(issued);
    }

    method PasswordLogin(current: Pair, canLogin: bool, ch: Choices)
      modifies `row, `up
      ensures Contents() == PasswordStep(old(Contents()), current, canLogin, ch)
    {
      if !canLogin || ch.loginFails.Some? {
        return;
      }
      var auth: Pair;
      up, auth := LoggedIn(up, ch).0, LoggedIn(up, ch).1;
      row := After(row, ch.foreign2);
      if ch.thirdFetch.FetchOk? {
        Persist(auth, current, true);
      } else {
        Persist(auth, current, false);
      }
    }

    method FetchWithAuthFallback(args: Args, ch: Choices)
      modifies this
      ensures Contents() == Ran(old(Contents()), args, ch)
    {
      var mode := ModeOf(row, args);
      var current := Snapshot(row, args);
      if mode.PasswordMode? {
        if args.canLogin && ch.loginFails.None? {
          up := LoggedIn(up, ch).0;
        }
        return;
      }
      if current.access != EMPTY {
        if ch.firstFetch.FetchOk? || !ch.firstFetch.category.Auth? {
          return;
        }
      } else if mode.TokenMode? && current.refresh == EMPTY {
        return;
      }
      if current.refresh != EMPTY {
        var r := Refresh(current.refresh, ch);
        if r.RefreshOk? {
          if r.pair.access == EMPTY {
            return;
          }
          var rotated := Rotated(r.pair, current.refresh);
          row := After(row, ch.foreign1);
          if ch.secondFetch.FetchOk? {
            Persist(rotated, current, true);
            return;
          }
          Persist(rotated, current, false);
          if !ch.secondFetch.category.Auth? {
            return;
          }
          current := rotated;
        } else if mode.TokenMode? || !r.category.Auth? {
          return;
        }
      }
      if mode.TokenMode? {
        return;
      }
      PasswordLogin(current, args.canLogin, ch);
    }
  }

  // ---------------------------------------------------------------------------------------
  // The live pair is never lost
  // ---------------------------------------------------------------------------------------

  predicate Quiet(ch: Choices) {
    ch.foreign1.Nothing? && ch.foreign2.Nothing?
  }

  /** The caller's stale tokens do not stand in for a NULL column. */
  predicate SnapshotIsHeld(row: Option<Row>, args: Args) {
    row.Some? && Snapshot(row, args) == row.value.Held()
  }

  /** The upstream's supply is fresh. */
  ghost predicate Sound(w: World) {
    && 0 < w.up.next && w.up.live.access < w.up.next && w.up.live.refresh < w.up.next
    && EMPTY !in w.cache
    && (forall t :: t in w.cache ==> t < w.up.next && w.cache[t].access < w.up.next && w.cache[t].refresh < w.up.next)
  }

  /** A remembered result for the live refresh token is the live pair, unless it is of no use. */
  predicate CacheIsLive(w: World) {
    var r := w.up.live.refresh;
    r in w.cache && w.cache[r].access != EMPTY ==> Rotated(w.cache[r], r) == w.up.live
  }

  /** A browser-mode site that alone holds its tokens: the row carries the newest pair. */
  predicate StoresLive(w: World) {
    w.row.Some? && w.row.value.mode.BrowserMode? && w.row.value.Held() == w.up.live
  }

  ghost predicate HoldsLive(w: World) {
    Sound(w) && CacheIsLive(w) && StoresLive(w)
  }

  predicate Withheld(r: Refreshed) {
    r.RefreshOk? && r.pair.access == EMPTY
  }

  /** The run does not end with the stored access token. */
  predicate RefreshReached(w: World, args: Args, ch: Choices) {
    var current := Snapshot(w.row, args);
    && !ModeOf(w.row, args).PasswordMode?
    && (current.access == EMPTY || (ch.firstFetch.FetchFailed? && ch.firstFetch.category.Auth?))
    && current.refresh != EMPTY
  }

  /** The refresh came without an access token. */
  predicate PairWithheld(w: World, args: Args, ch: Choices) {
    RefreshReached(w, args, ch) && Withheld(RefreshReply(w, Snapshot(w.row, args).refresh, ch).1)
  }

  /** The run gets as far as writing the pair of a login. */
  predicate LogsIn(w: World, args: Args, ch: Choices) {
    var current := Snapshot(w.row, args);
    && ModeOf(w.row, args).BrowserMode?
    && args.canLogin && ch.loginFails.None?
    && (current.access == EMPTY || (ch.firstFetch.FetchFailed? && ch.firstFetch.category.Auth?))
    && (RefreshReached(w, args, ch) ==>
          var r := RefreshReply(w, current.refresh, ch).1;
          if r.RefreshOk? then
            r.pair.access != EMPTY && ch.secondFetch.FetchFailed? && ch.secondFetch.category.Auth?
          else r.category.Auth?)
  }

  /** The upstream and the cache as a login finds them. */
  function AtLogin(w: World, args: Args, ch: Choices): World {
    if RefreshReached(w, args, ch) then RefreshReply(w, Snapshot(w.row, args).refresh, ch).0 else w
  }

  /** A login that keeps the refresh token overtakes the result remembered for that token. */
  predicate OvertakesCache(w: World, args: Args, ch: Choices) {
    var at := AtLogin(w, args, ch);
    var r := at.up.live.refresh;
    LogsIn(w, args, ch) && !ch.loginGivesRefresh && r in at.cache && at.cache[r].access != EMPTY
  }

  lemma PasswordStoresLive(w: World, current: Pair, canLogin: bool, ch: Choices)
    requires StoresLive(w) && current == w.row.value.Held() && Quiet(ch) && Sound(w)
    ensures StoresLive(PasswordStep(w, current, canLogin, ch)) && Sound(PasswordStep(w, current, canLogin, ch))
  {
  }

  lemma RefreshStoresLive(w: World, current: Pair, canLogin: bool, ch: Choices)
    requires HoldsLive(w) && current == w.row.value.Held() && Quiet(ch)
    requires current.refresh != EMPTY && !Withheld(RefreshReply(w, current.refresh, ch).1)
    ensures var r := RefreshStep(w, current, BrowserMode, canLogin, ch); StoresLive(r) && Sound(r)
  {
    var (w1, r) := RefreshReply(w, current.refresh, ch);
    if r.RefreshOk? {
      var rotated := Rotated(r.pair, current.refresh);
      var w2 := w1.(row := Persisted(w1.row, rotated, current, ch.secondFetch.FetchOk?));
      assert StoresLive(w2) && Sound(w2);
      PasswordStoresLive(w2, rotated, canLogin, ch);
    } else {
      PasswordStoresLive(w1, current, canLogin, ch);
    }
  }

  /** After every finished run the row holds the newest pair the upstream issued; and what the cache
      remembers for it is that pair, unless the run's login overtook it. */
  lemma RunKeepsLive(w: World, args: Args, ch: Choices)
    requires HoldsLive(w) && SnapshotIsHeld(w.row, args) && Quiet(ch) && !PairWithheld(w, args, ch)
    ensures StoresLive(Ran(w, args, ch)) && Sound(Ran(w, args, ch))
    ensures CacheIsLive(Ran(w, args, ch)) <==> !OvertakesCache(w, args, ch)
  {
    var current := Snapshot(w.row, args);
    if RefreshReached(w, args, ch) {
      RefreshStoresLive(w, current, args.canLogin, ch);
    } else {
      PasswordStoresLive(w, current, args.canLogin, ch);
    }
  }

  /** With a remembered result for the live refresh token, a run that shares it and fetches stores that
      result: the live pair exactly if no login has overtaken it. */
  lemma SharedResultIff(w: World, args: Args, ch: Choices)
    requires StoresLive(w) && SnapshotIsHeld(w.row, args) && Quiet(ch) && RefreshReached(w, args, ch)
    requires w.up.live.refresh in w.cache && ch.cacheYoung && ch.secondFetch.FetchOk?
    ensures StoresLive(Ran(w, args, ch)) <==> CacheIsLive(w)
  {
  }

  function AfterRuns(w: World, runs: seq<(Args, Choices)>): World {
    if runs == [] then w
    else Ran(AfterRuns(w, runs[..|runs| - 1]), runs[|runs| - 1].0, runs[|runs| - 1].1)
  }

  /** A column that is NULL was NULL before. */
  predicate FillsColumns(before: Option<Row>, now: Option<Row>) {
    before.Some? && now.Some?
    && (now.value.access.None? ==> before.value.access.None?)
    && (now.value.refresh.None? ==> before.value.refresh.None?)
  }

  lemma PersistedFills(row: Option<Row>, auth: Pair, expected: Pair, restore: bool)
    requires row.Some?
    ensures FillsColumns(row, Persisted(row, auth, expected, restore))
  {
  }

  lemma PasswordStepFills(w: World, current: Pair, canLogin: bool, ch: Choices)
    requires w.row.Some? && Quiet(ch)
    ensures FillsColumns(w.row, PasswordStep(w, current, canLogin, ch).row)
  {
    PersistedFills(w.row, LoggedIn(w.up, ch).1, current, ch.thirdFetch.FetchOk?);
  }

  lemma RefreshStepFills(w: World, current: Pair, mode: Mode, canLogin: bool, ch: Choices)
    requires w.row.Some? && Quiet(ch)
    ensures FillsColumns(w.row, RefreshStep(w, current, mode, canLogin, ch).row)
  {
    var (w1, r) := RefreshReply(w, current.refresh, ch);
    if r.RefreshOk? {
      var rotated := Rotated(r.pair, current.refresh);
      PersistedFills(w1.row, rotated, current, ch.secondFetch.FetchOk?);
      var w2 := w1.(row := Persisted(w1.row, rotated, current, ch.secondFetch.FetchOk?));
      PasswordStepFills(w2, rotated, canLogin, ch);
    } else {
      PasswordStepFills(w1, current, canLogin, ch);
    }
  }

  /** A run that nobody disturbs empties no column. */
  lemma RanFills(w: World, args: Args, ch: Choices)
    requires w.row.Some? && Quiet(ch)
    ensures FillsColumns(w.row, Ran(w, args, ch).row)
  {
    var current := Snapshot(w.row, args);
    RefreshStepFills(w, current, ModeOf(w.row, args), args.canLogin, ch);
    PasswordStepFills(w, current, args.canLogin, ch);
  }

  /** Nobody else writes the row, and no caller passes a token for a column that is NULL. */
  ghost predicate SoleHolder(row: Option<Row>, runs: seq<(Args, Choices)>) {
    forall k :: 0 <= k < |runs| ==> SnapshotIsHeld(row, runs[k].0) && Quiet(runs[k].1)
  }

  /** No refresh comes without an access token, and no login overtakes a remembered result. */
  ghost predicate NothingWithheld(w: World, runs: seq<(Args, Choices)>) {
    forall k :: 0 <= k < |runs| ==>
      !PairWithheld(AfterRuns(w, runs[..k]), runs[k].0, runs[k].1) &&
      !OvertakesCache(AfterRuns(w, runs[..k]), runs[k].0, runs[k].1)
  }

  /** With any upstream, then, the row holds the newest pair after every sequence of such runs. */
  lemma {:induction false} RunsKeepLive(w: World, runs: seq<(Args, Choices)>)
    requires HoldsLive(w) && SoleHolder(w.row, runs) && NothingWithheld(w, runs)
    ensures HoldsLive(AfterRuns(w, runs)) && FillsColumns(w.row, AfterRuns(w, runs).row)
  {
    if runs != [] {
      var n := |runs| - 1;
      var mid := AfterRuns(w, runs[..n]);
      forall k | 0 <= k < n ensures runs[..n][..k] == runs[..k] {}
      RunsKeepLive(w, runs[..n]);
      assert SnapshotIsHeld(mid.row, runs[n].0);
      RunKeepsLive(mid, runs[n].0, runs[n].1);
      RanFills(mid, runs[n].0, runs[n].1);
    }
  }

  ghost predicate NoneEmpty(cache: map<Token, Pair>) {
    forall t :: t in cache ==> cache[t].access != EMPTY
  }

  lemma FullReply(w: World, args: Args, ch: Choices)
    requires Sound(w) && NoneEmpty(w.cache) && !ch.withholdsAccess
    ensures !PairWithheld(w, args, ch) && NoneEmpty(Ran(w, args, ch).cache)
  {
  }

  /** In particular where refreshes give an access token and logins give both, although a refresh may
      keep the refresh token: all conditions are on the start and on what the upstream does. */
  lemma {:induction false} GivingLoginsKeepLive(w: World, runs: seq<(Args, Choices)>)
    requires HoldsLive(w) && NoneEmpty(w.cache) && SoleHolder(w.row, runs)
    requires forall k :: 0 <= k < |runs| ==> !runs[k].1.withholdsAccess && runs[k].1.loginGivesRefresh
    ensures HoldsLive(AfterRuns(w, runs)) && FillsColumns(w.row, AfterRuns(w, runs).row)
    ensures NoneEmpty(AfterRuns(w, runs).cache)
  {
    if runs != [] {
      var n := |runs| - 1;
      var mid := AfterRuns(w, runs[..n]);
      GivingLoginsKeepLive(w, runs[..n]);
      assert SnapshotIsHeld(mid.row, runs[n].0);
      FullReply(mid, runs[n].0, runs[n].1);
      RunKeepsLive(mid, runs[n].0, runs[n].1);
      RanFills(mid, runs[n].0, runs[n].1);
    }
  }

  // ---------------------------------------------------------------------------------------
  // Upstreams whose refresh token is good for one use
  // ---------------------------------------------------------------------------------------

  /** A refresh issues a new access token and a new refresh token. */
  predicate Rotating(ch: Choices) {
    !ch.withholdsAccess && !ch.keepsRefresh
  }

  /** The row carries the newest pair, and no result is remembered for its refresh token. */
  ghost predicate HoldsUnused(w: World) {
    Sound(w) && StoresLive(w) && w.up.live.refresh !in w.cache
  }

  lemma RotatingPasswordStep(w: World, current: Pair, canLogin: bool, ch: Choices)
    requires HoldsUnused(w) && current == w.row.value.Held() && Quiet(ch)
    ensures HoldsUnused(PasswordStep(w, current, canLogin, ch))
  {
    PasswordStoresLive(w, current, canLogin, ch);
  }

  lemma RotatingRefreshStep(w: World, current: Pair, canLogin: bool, ch: Choices)
    requires HoldsUnused(w) && current == w.row.value.Held() && current.refresh != EMPTY && Quiet(ch) && Rotating(ch)
    ensures HoldsUnused(RefreshStep(w, current, BrowserMode, canLogin, ch))
  {
    var (w1, r) := RefreshReply(w, current.refresh, ch);
    if r.RefreshOk? {
      var rotated := Rotated(r.pair, current.refresh);
      var w2 := w1.(row := Persisted(w1.row, rotated, current, ch.secondFetch.FetchOk?));
      assert HoldsUnused(w2);
      RotatingPasswordStep(w2, rotated, canLogin, ch);
    } else {
      assert w1 == w;
      RotatingPasswordStep(w, current, canLogin, ch);
    }
  }

  lemma RotatingRunKeepsLive(w: World, args: Args, ch: Choices)
    requires HoldsUnused(w) && SnapshotIsHeld(w.row, args) && Quiet(ch) && Rotating(ch)
    ensures HoldsUnused(Ran(w, args, ch))
  {
    var current := Snapshot(w.row, args);
    if current.refresh != EMPTY {
      RotatingRefreshStep(w, current, args.canLogin, ch);
    }
    RotatingPasswordStep(w, current, args.canLogin, ch);
  }

  /** Where every refresh gives a new pair, the row holds the newest pair after any sequence of runs,
      whatever fails and whatever the logins give. */
  lemma {:induction false} RotatingRunsKeepLive(w: World, runs: seq<(Args, Choices)>)
    requires HoldsUnused(w) && SoleHolder(w.row, runs)
    requires forall k :: 0 <= k < |runs| ==> Rotating(runs[k].1)
    ensures HoldsUnused(AfterRuns(w, runs)) && FillsColumns(w.row, AfterRuns(w, runs).row)
  {
    if runs != [] {
      var n := |runs| - 1;
      RotatingRunsKeepLive(w, runs[..n]);
      var mid := AfterRuns(w, runs[..n]);
      assert SnapshotIsHeld(mid.row, runs[n].0);
      RotatingRunKeepsLive(mid, runs[n].0, runs[n].1);
      RanFills(mid, runs[n].0, runs[n].1);
    }
  }

  const REFRESH_KEEPS: Choices :=
    Choices(FetchFailed(Auth), false, None, false, true, FetchFailed(Auth), Nothing, None, false, FetchOk, Nothing)
  const SHARES: Choices :=
    Choices(FetchFailed(Auth), true, None, false, true, FetchOk, Nothing, None, false, FetchOk, Nothing)

  /** Where the refresh token outlives its use: a run refreshes, is rejected and logs in, which gives no
      new refresh token; the next run shares the remembered result and stores it over the newer pair. */
  lemma OutdatedResultIsStored(args: Args) returns (w: World)
    requires args.canLogin
    ensures w.row == Some(Row(BrowserMode, Some(1), Some(2), false)) && w.cache == map[] && HoldsLive(w)
    ensures var runs := [(args, REFRESH_KEEPS), (args, SHARES)];
            && StoresLive(AfterRuns(w, runs[..1]))
            && !StoresLive(AfterRuns(w, runs)) && AfterRuns(w, runs).row.value.Held() == Pair(3, 2)
            && AfterRuns(w, runs).up.live == Pair(5, 2)
  {
    w := World(Some(Row(BrowserMode, Some(1), Some(2), false)), Upstream(Pair(1, 2), 3), map[]);
    var runs := [(args, REFRESH_KEEPS), (args, SHARES)];
    var w1 := Ran(w, args, REFRESH_KEEPS);
    assert w1 == World(Some(Row(BrowserMode, Some(5), Some(2), true)), Upstream(Pair(5, 2), 7), map[2 := Pair(3, EMPTY)]);
    assert runs[..1][..0] == [] && AfterRuns(w, []) == w && AfterRuns(w, runs[..1]) == w1;
    assert AfterRuns(w, runs) == Ran(w1, args, SHARES);
  }

  // ---------------------------------------------------------------------------------------
  // Stale arguments
  // ---------------------------------------------------------------------------------------

  lemma StaleArgsLoseLogin(w: World, current: Pair, canLogin: bool, ch: Choices)
    requires w.row.Some? && w.row.value.Held() != current && Quiet(ch)
    ensures PasswordStep(w, current, canLogin, ch).row == w.row
  {
  }

  /** With stale tokens standing in for NULL, no write of the run succeeds. */
  lemma StaleArgsWriteNothing(w: World, args: Args, ch: Choices)
    requires HoldsLive(w) && Quiet(ch) && !SnapshotIsHeld(w.row, args)
    ensures Ran(w, args, ch).row == w.row
  {
    var current := Snapshot(w.row, args);
    assert w.row.value.Held() != current;
    if RefreshReached(w, args, ch) {
      var (w1, r) := RefreshReply(w, current.refresh, ch);
      if r.RefreshOk? {
        var rotated := Rotated(r.pair, current.refresh);
        if r.pair.access != EMPTY {
          assert rotated.access != EMPTY && rotated.refresh != EMPTY;
          assert w.row.value.Held() != rotated;
          StaleArgsLoseLogin(w1, rotated, args.canLogin, ch);
        }
      } else {
        StaleArgsLoseLogin(w1, current, args.canLogin, ch);
      }
    } else {
      StaleArgsLoseLogin(w, current, args.canLogin, ch);
    }
  }

  /** The upstream issues something to the run. */
  predicate Issues(w: World, args: Args, ch: Choices) {
    || (RefreshReached(w, args, ch) && UsesRefresh(w, Snapshot(w.row, args).refresh, ch)
        && !(ch.withholdsAccess && ch.keepsRefresh))
    || LogsIn(w, args, ch)
  }

  /** Only then does its newest pair change. */
  lemma LiveChangesIff(w: World, args: Args, ch: Choices)
    requires Sound(w) && w.row.Some? && w.row.value.mode.BrowserMode?
    ensures Ran(w, args, ch).up.live == w.up.live <==> !Issues(w, args, ch)
  {
  }

  /** The refresh step obtained a pair that it will write. */
  predicate Rotates(w: World, args: Args, ch: Choices) {
    RefreshReached(w, args, ch) &&
    var r := RefreshReply(w, Snapshot(w.row, args).refresh, ch).1;
    r.RefreshOk? && r.pair.access != EMPTY
  }

  function RotatedPair(w: World, args: Args, ch: Choices): Pair
    requires Rotates(w, args, ch)
  {
    var token := Snapshot(w.row, args).refresh;
    Rotated(RefreshReply(w, token, ch).1.pair, token)
  }

  /** In the other modes: with stored passwords a run logs in and does nothing else; with stored tokens it
      refreshes but never logs in. */
  lemma LiveChangesInOtherModesIff(w: World, args: Args, ch: Choices)
    requires Sound(w) && w.row.Some? && !w.row.value.mode.BrowserMode?
    ensures Ran(w, args, ch).up.live != w.up.live <==>
      if w.row.value.mode.PasswordMode? then args.canLogin && ch.loginFails.None?
      else RefreshReached(w, args, ch) && UsesRefresh(w, Snapshot(w.row, args).refresh, ch)
           && !(ch.withholdsAccess && ch.keepsRefresh)
    ensures w.row.value.mode.PasswordMode? ==> Ran(w, args, ch).row == w.row && Ran(w, args, ch).cache == w.cache
  {
  }

  predicate SameUpstream(a: World, b: World) {
    a.up == b.up && a.cache == b.cache
  }

  lemma PasswordStepAsks(a: World, b: World, current: Pair, canLogin: bool, ch: Choices)
    requires SameUpstream(a, b)
    ensures SameUpstream(PasswordStep(a, current, canLogin, ch), PasswordStep(b, current, canLogin, ch))
  {
  }

  lemma RefreshStepAsks(a: World, b: World, current: Pair, mode: Mode, canLogin: bool, ch: Choices)
    requires SameUpstream(a, b)
    ensures SameUpstream(RefreshStep(a, current, mode, canLogin, ch), RefreshStep(b, current, mode, canLogin, ch))
  {
    var (a1, r) := RefreshReply(a, current.refresh, ch);
    var (b1, q) := RefreshReply(b, current.refresh, ch);
    assert r == q && SameUpstream(a1, b1);
    hide RefreshReply, PasswordStep, Persisted;
    if r.RefreshOk? {
      var rotated := Rotated(r.pair, current.refresh);
      PasswordStepAsks(a1.(row := Persisted(After(a1.row, ch.foreign1), rotated, current, ch.secondFetch.FetchOk?)),
                       b1.(row := Persisted(After(b1.row, ch.foreign1), rotated, current, ch.secondFetch.FetchOk?)),
                       rotated, canLogin, ch);
    } else {
      PasswordStepAsks(a1, b1, current, canLogin, ch);
    }
  }

  /** What a run asks the upstream depends on the row only for the mode and the tokens it starts from. */
  lemma RunAsks(a: World, b: World, args: Args, ch: Choices)
    requires SameUpstream(a, b) && ModeOf(a.row, args) == ModeOf(b.row, args)
    requires Snapshot(a.row, args) == Snapshot(b.row, args)
    ensures SameUpstream(Ran(a, args, ch), Ran(b, args, ch))
  {
    var current := Snapshot(a.row, args);
    RefreshStepAsks(a, b, current, ModeOf(a.row, args), args.canLogin, ch);
    PasswordStepAsks(a, b, current, args.canLogin, ch);
    hide RefreshStep, PasswordStep;
  }

  /** If the site has been deleted, the run asks the upstream as for a row with the caller's own mode and
      tokens, and writes no row; where a column is NULL, as for a row with the caller's token in it. */
  lemma ArgsStandIn(w: World, args: Args, ch: Choices)
    requires Quiet(ch)
    ensures w.row.None? ==>
      var full := Some(Row(args.mode, Some(args.pair.access), Some(args.pair.refresh), false));
      Ran(w, args, ch).row.None? && SameUpstream(Ran(w, args, ch), Ran(w.(row := full), args, ch))
    ensures w.row.Some? ==>
      var row := w.row.value;
      var full := Some(row.(access := Some(if row.access.Some? then row.access.value else args.pair.access),
                            refresh := Some(if row.refresh.Some? then row.refresh.value else args.pair.refresh)));
      SameUpstream(Ran(w, args, ch), Ran(w.(row := full), args, ch))
  {
    var full := if w.row.None? then Row(args.mode, Some(args.pair.access), Some(args.pair.refresh), false)
                else var row := w.row.value;
                  row.(access := Some(if row.access.Some? then row.access.value else args.pair.access),
                       refresh := Some(if row.refresh.Some? then row.refresh.value else args.pair.refresh));
    RunAsks(w, w.(row := Some(full)), args, ch);
    if w.row.None? { DeletedStays(w, args, ch); }
  }

  lemma DeletedStays(w: World, args: Args, ch: Choices)
    requires w.row.None? && Quiet(ch)
    ensures Ran(w, args, ch).row.None?
  {
  }

  /** An undisturbed run that started from what the row holds never changes the row's mode, and turns the
      site ready exactly if a fetch succeeded with tokens the run itself obtained. */
  lemma ReadyIff(w: World, args: Args, ch: Choices)
    requires w.row.Some? && SnapshotIsHeld(w.row, args) && Quiet(ch)
    ensures var r := Ran(w, args, ch).row;
            && r.Some? && r.value.mode == w.row.value.mode
            && (r.value.ready <==>
                  || w.row.value.ready
                  || (w.row.value.mode.BrowserMode? && Rotates(w, args, ch) && ch.secondFetch.FetchOk?)
                  || (LogsIn(w, args, ch) && ch.thirdFetch.FetchOk?))
  {
  }

  /** After a run that nobody disturbs, the row holds the live pair exactly if nothing was issued, or
      the run started from what the row held and the access token was not withheld. */
  lemma LivePairKeptIff(w: World, args: Args, ch: Choices)
    requires HoldsLive(w) && Quiet(ch)
    ensures var r := Ran(w, args, ch);
            && r.row.Some?
            && (r.row.value.Held() == r.up.live <==>
                  !Issues(w, args, ch) || (SnapshotIsHeld(w.row, args) && !PairWithheld(w, args, ch)))
  {
    LiveChangesIff(w, args, ch);
    if !SnapshotIsHeld(w.row, args) {
      StaleArgsWriteNothing(w, args, ch);
    } else if !PairWithheld(w, args, ch) {
      RunKeepsLive(w, args, ch);
    } else {
      assert Ran(w, args, ch).row == w.row;
    }
  }

  /** The row's NULL and the caller's older token: the run logs in, and the new pair is lost. */
  lemma StaleArgsLoseThePair()
    ensures exists w: World, args: Args, ch: Choices ::
      HoldsLive(w) && Quiet(ch) && Ran(w, args, ch).up.live != w.up.live && Ran(w, args, ch).row == w.row
  {
    var w := World(Some(Row(BrowserMode, None, None, false)), Upstream(Pair(EMPTY, EMPTY), 5), map[]);
    var args := Args(BrowserMode, Pair(3, EMPTY), true);
    var ch := Choices(FetchFailed(Auth), false, None, false, false, FetchOk, Nothing, None, true, FetchOk, Nothing);
    assert HoldsLive(w) && Quiet(ch);
    assert Ran(w, args, ch).up.live == Pair(5, 6) && Ran(w, args, ch).row == w.row;
  }

  // ---------------------------------------------------------------------------------------
  // Other writers
  // ---------------------------------------------------------------------------------------

  /** A write that expects this pair meets it. */
  predicate Meets(row: Option<Row>, expected: Pair, restore: bool) {
    row.Some? && row.value.Held() == expected && (restore ==> row.value.mode.BrowserMode?)
  }

  /** The run's own tokens are new to it. */
  ghost predicate NewTokens(w: World, args: Args, ch: Choices) {
    && Sound(w) && Snapshot(w.row, args).access < w.up.next
    && (Rotates(w, args, ch) ==> RotatedPair(w, args, ch).access != Snapshot(w.row, args).access)
  }

  /** What someone else writes between the run's snapshot and its first write stands, exactly if it is
      neither the pair the run started from nor, where a login follows, the pair it rotated to. */
  lemma EarlyForeignWriteIff(w: World, args: Args, ch: Choices)
    requires Rotates(w, args, ch) && ch.foreign1.Writes? && ch.foreign2.Nothing? && NewTokens(w, args, ch)
    ensures var f := ch.foreign1.row;
            Ran(w, args, ch).row == f <==>
              && !Meets(f, Snapshot(w.row, args), ch.secondFetch.FetchOk?)
              && !(LogsIn(w, args, ch) && Meets(f, RotatedPair(w, args, ch), ch.thirdFetch.FetchOk?))
  {
  }

  /** What someone else writes in front of the write of a login stands, exactly if it is not the pair
      the run then expects. */
  lemma LateForeignWriteIff(w: World, args: Args, ch: Choices)
    requires LogsIn(w, args, ch) && ch.foreign2.Writes? && NewTokens(w, args, ch)
    ensures var f := ch.foreign2.row;
            var expected := if Rotates(w, args, ch) then RotatedPair(w, args, ch) else Snapshot(w.row, args);
            Ran(w, args, ch).row == f <==> !Meets(f, expected, ch.thirdFetch.FetchOk?)
  {
  }

  // ---------------------------------------------------------------------------------------
  // Token mode
  // ---------------------------------------------------------------------------------------

  /** In token mode the pair of a rotation is stored exactly if the fetch that follows fails: the
      success write asks for browser mode. */
  lemma TokenModeStoresIff(w: World, args: Args, ch: Choices)
    requires Sound(w) && w.row.Some? && w.row.value.mode.TokenMode? && w.row.value.Held() == w.up.live
    requires SnapshotIsHeld(w.row, args) && Quiet(ch)
    requires Rotates(w, args, ch) && UsesRefresh(w, Snapshot(w.row, args).refresh, ch)
    ensures var r := Ran(w, args, ch);
            r.row.Some? && (r.row.value.Held() == r.up.live <==> ch.secondFetch.FetchFailed?)
  {
  }
}
