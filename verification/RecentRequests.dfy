/** The recent requests of a main-site channel: an entry is built from the upstream's log rows, cached,
    and re-timed when it is served later.  Times are whole seconds: ages are truncated to seconds and
    row times are whole. */
module RecentRequests {

  type Time = int

  datatype Info = Info(logId: nat, modelName: string, ttftSeconds: real, totalSeconds: real, isStream: bool)

  /** A log row, as far as it could be parsed. */
  datatype LogRow = Unparsable | Parsed(createdAt: Time, info: Info)

  datatype Config = Config(windowSeconds: nat, staleSeconds: nat, fastSeconds: real, slowSeconds: real)

  datatype Level = Slow | Normal | Fast

  datatype Point = Point(createdAt: Time, info: Info, age: nat, stale: bool, level: Level)

  datatype State = Error(message: string) | Active | Idle

  /** A channel's entry, without the time it was fetched at. */
  datatype Entry = Entry(channel: nat, state: State, requests: seq<Point>)

  /** `_levelForTtft` */
  function LevelFor(cfg: Config, ttft: real): Level {
    if ttft >= cfg.slowSeconds then Slow else if ttft >= cfg.fastSeconds then Normal else Fast
  }

  function Age(createdAt: Time, now: Time): nat {
    if now > createdAt then now - createdAt else 0
  }

  predicate Usable(row: LogRow) {
    row.Parsed? && row.createdAt > 0
  }

  function PointOf(cfg: Config, row: LogRow, now: Time): Point
    requires row.Parsed?
  {
    var age := Age(row.createdAt, now);
    Point(row.createdAt, row.info, age, age > cfg.staleSeconds, LevelFor(cfg, row.info.ttftSeconds))
  }

  /** The first row outside the window ends the list: everything behind it is taken to be older. */
  function Points(cfg: Config, rows: seq<LogRow>, now: Time): seq<Point> {
    if rows == [] then []
    else if !Usable(rows[0]) then Points(cfg, rows[1..], now)
    else if Age(rows[0].createdAt, now) > cfg.windowSeconds then []
    else [PointOf(cfg, rows[0], now)] + Points(cfg, rows[1..], now)
  }

  function StateOf(points: seq<Point>): State {
    if points == [] then Idle else Active
  }

  /** `_buildEntry` */
  function Built(cfg: Config, channel: nat, rows: seq<LogRow>, now: Time): Entry {
    var points := Points(cfg, rows, now);
    Entry(channel, StateOf(points), points)
  }

  function Retimed(cfg: Config, p: Point, now: Time): Point {
    var age := Age(p.createdAt, now);
    p.(age := age, stale := age > cfg.staleSeconds)
  }

  function Kept(cfg: Config, points: seq<Point>, now: Time): seq<Point> {
    if points == [] then []
    else if Age(points[0].createdAt, now) > cfg.windowSeconds then Kept(cfg, points[1..], now)
    else [Retimed(cfg, points[0], now)] + Kept(cfg, points[1..], now)
  }

  /** `_rederiveEntryTiming` */
  function Rederived(cfg: Config, e: Entry, now: Time): Entry {
    if !e.state.Active? then e
    else
      var kept := Kept(cfg, e.requests, now);
      e.(requests := kept, state := if kept == [] then Idle else e.state)
  }

  method BuildEntry(cfg: Config, channel: nat, ok: bool, rows: seq<LogRow>, error: string, now: Time)
    returns (e: Entry)
    ensures ok ==> e == Built(cfg, channel, rows, now)
    ensures !ok ==> e == Entry(channel, Error(error), [])
  {
    if !ok {
      return Entry(channel, Error(error), []);
    }
    var points: seq<Point> := [];
    var i := 0;
    while i < |rows|
      invariant 0 <= i <= |rows|
      invariant points + Points(cfg, rows[i..], now) == Points(cfg, rows, now)
    {
      var row := rows[i];
      i := i + 1;
      if row.Unparsable? || row.createdAt <= 0 {
        continue;
      }
      var age := Age(row.createdAt, now);
      if age > cfg.windowSeconds {
        break;
      }
      points := points + [Point(row.createdAt, row.info, age, age > cfg.staleSeconds,
                                LevelFor(cfg, row.info.ttftSeconds))];
    }
    return Entry(channel, if points != [] then Active else Idle, points);
  }

  method RederiveEntryTiming(cfg: Config, e: Entry, now: Time) returns (r: Entry)
    ensures r == Rederived(cfg, e, now)
  {
    if !e.state.Active? {
      return e;
    }
    var kept: seq<Point> := [];
    for i := 0 to |e.requests|
      invariant kept + Kept(cfg, e.requests[i..], now) == Kept(cfg, e.requests, now)
    {
      var p := e.requests[i];
      var age := Age(p.createdAt, now);
      if age > cfg.windowSeconds {
        continue;
      }
      kept := kept + [p.(age := age, stale := age > cfg.staleSeconds)];
    }
    return e.(requests := kept, state := if kept == [] then Idle else e.state);
  }

  // ---------------------------------------------------------------------------------------
  // A cached entry served later equals a rebuilt one
  // ---------------------------------------------------------------------------------------

  /** The usable rows come newest first. */
  ghost predicate NewestFirst(rows: seq<LogRow>) {
    forall i, j :: 0 <= i < j < |rows| && Usable(rows[i]) && Usable(rows[j]) ==>
      rows[j].createdAt <= rows[i].createdAt
  }

  /** All usable rows in the window, wherever they stand. */
  function InWindow(cfg: Config, rows: seq<LogRow>, now: Time): seq<Point> {
    if rows == [] then []
    else if !Usable(rows[0]) || Age(rows[0].createdAt, now) > cfg.windowSeconds then InWindow(cfg, rows[1..], now)
    else [PointOf(cfg, rows[0], now)] + InWindow(cfg, rows[1..], now)
  }

  lemma {:induction false} OlderAreOut(cfg: Config, rows: seq<LogRow>, now: Time)
    requires forall j :: 0 <= j < |rows| && Usable(rows[j]) ==> Age(rows[j].createdAt, now) > cfg.windowSeconds
    ensures InWindow(cfg, rows, now) == []
  {
    if rows != [] { OlderAreOut(cfg, rows[1..], now); }
  }

  /** On newest-first rows stopping early loses nothing. */
  lemma {:induction false} PointsAreInWindow(cfg: Config, rows: seq<LogRow>, now: Time)
    requires NewestFirst(rows)
    ensures Points(cfg, rows, now) == InWindow(cfg, rows, now)
  {
    if rows != [] {
      assert NewestFirst(rows[1..]);
      if Usable(rows[0]) && Age(rows[0].createdAt, now) > cfg.windowSeconds {
        OlderAreOut(cfg, rows, now);
      } else {
        PointsAreInWindow(cfg, rows[1..], now);
      }
    }
  }

  lemma {:induction false} KeptOfInWindow(cfg: Config, rows: seq<LogRow>, t0: Time, t1: Time)
    requires t0 <= t1
    ensures Kept(cfg, InWindow(cfg, rows, t0), t1) == InWindow(cfg, rows, t1)
  {
    if rows != [] {
      KeptOfInWindow(cfg, rows[1..], t0, t1);
      var row := rows[0];
      if Usable(row) && Age(row.createdAt, t0) <= cfg.windowSeconds {
        var rest := InWindow(cfg, rows[1..], t0);
        assert ([PointOf(cfg, row, t0)] + rest)[1..] == rest;
      }
    }
  }

  /** Re-timing at `t1` the entry built at `t0` gives the entry built at `t1`. */
  lemma RetimingAgrees(cfg: Config, channel: nat, rows: seq<LogRow>, t0: Time, t1: Time)
    requires NewestFirst(rows) && t0 <= t1
    ensures Rederived(cfg, Built(cfg, channel, rows, t0), t1) == Built(cfg, channel, rows, t1)
  {
    PointsAreInWindow(cfg, rows, t0);
    PointsAreInWindow(cfg, rows, t1);
    KeptOfInWindow(cfg, rows, t0, t1);
  }

  ghost predicate AlwaysAgrees(cfg: Config, channel: nat, rows: seq<LogRow>) {
    forall t0: Time, t1: Time :: t0 <= t1 ==>
      Rederived(cfg, Built(cfg, channel, rows, t0), t1) == Built(cfg, channel, rows, t1)
  }

  lemma {:induction false} AllInEarly(cfg: Config, rows: seq<LogRow>, t: Time)
    requires forall i :: 0 <= i < |rows| && Usable(rows[i]) ==> t <= rows[i].createdAt
    ensures Points(cfg, rows, t) == InWindow(cfg, rows, t)
  {
    if rows != [] { AllInEarly(cfg, rows[1..], t); }
  }

  /** Stopping at row `i` loses the row `j` behind it. */
  lemma {:induction false} StoppingLoses(cfg: Config, rows: seq<LogRow>, t: Time, i: nat, j: nat)
    requires i < j < |rows| && Usable(rows[i]) && Usable(rows[j])
    requires Age(rows[j].createdAt, t) <= cfg.windowSeconds < Age(rows[i].createdAt, t)
    ensures |Points(cfg, rows, t)| < |InWindow(cfg, rows, t)|
  {
    if i == 0 || (Usable(rows[0]) && Age(rows[0].createdAt, t) > cfg.windowSeconds) {
      HoldsSome(cfg, rows, t, j);
    } else {
      StoppingLoses(cfg, rows[1..], t, i - 1, j - 1);
    }
  }

  lemma {:induction false} HoldsSome(cfg: Config, rows: seq<LogRow>, t: Time, j: nat)
    requires j < |rows| && Usable(rows[j]) && Age(rows[j].createdAt, t) <= cfg.windowSeconds
    ensures InWindow(cfg, rows, t) != []
  {
    if j > 0 { HoldsSome(cfg, rows[1..], t, j - 1); }
  }

  /** Re-timing agrees with rebuilding at all times, exactly if the upstream lists its rows newest
      first. */
  lemma RetimingAgreesIff(cfg: Config, channel: nat, rows: seq<LogRow>)
    ensures AlwaysAgrees(cfg, channel, rows) <==> NewestFirst(rows)
  {
    if NewestFirst(rows) {
      forall t0: Time, t1: Time | t0 <= t1
        ensures Rederived(cfg, Built(cfg, channel, rows, t0), t1) == Built(cfg, channel, rows, t1)
      {
        RetimingAgrees(cfg, channel, rows, t0, t1);
      }
    } else {
      var i, j :| 0 <= i < j < |rows| && Usable(rows[i]) && Usable(rows[j]) && rows[i].createdAt < rows[j].createdAt;
      var t0, t1 := 0, rows[i].createdAt + cfg.windowSeconds + 1;
      AllInEarly(cfg, rows, t0);
      HoldsSome(cfg, rows, t0, i);
      KeptOfInWindow(cfg, rows, t0, t1);
      StoppingLoses(cfg, rows, t1, i, j);
      assert Rederived(cfg, Built(cfg, channel, rows, t0), t1).requests == InWindow(cfg, rows, t1);
      assert Built(cfg, channel, rows, t1).requests == Points(cfg, rows, t1);
    }
  }

  lemma {:induction false} KeptTwice(cfg: Config, points: seq<Point>, t1: Time, t2: Time)
    requires t1 <= t2
    ensures Kept(cfg, Kept(cfg, points, t1), t2) == Kept(cfg, points, t2)
  {
    if points != [] {
      KeptTwice(cfg, points[1..], t1, t2);
      if Age(points[0].createdAt, t1) <= cfg.windowSeconds {
        var rest := Kept(cfg, points[1..], t1);
        assert ([Retimed(cfg, points[0], t1)] + rest)[1..] == rest;
      }
    }
  }

  /** Re-timing twice is re-timing once, for any entry. */
  lemma RetimingComposes(cfg: Config, e: Entry, t1: Time, t2: Time)
    requires t1 <= t2
    ensures Rederived(cfg, Rederived(cfg, e, t1), t2) == Rederived(cfg, e, t2)
  {
    KeptTwice(cfg, e.requests, t1, t2);
  }

  // ---------------------------------------------------------------------------------------
  // What an entry shows
  // ---------------------------------------------------------------------------------------

  /** The point shows this row as of `now`. */
  predicate ShowsRow(cfg: Config, row: LogRow, now: Time, p: Point) {
    && row.Parsed? && p.createdAt == row.createdAt && p.info == row.info
    && p.age == (if row.createdAt <= now then now - row.createdAt else 0)
    && (p.stale <==> row.createdAt + cfg.staleSeconds < now)
    && (p.level.Slow? <==> cfg.slowSeconds <= row.info.ttftSeconds)
    && (p.level.Fast? <==> row.info.ttftSeconds < cfg.slowSeconds && row.info.ttftSeconds < cfg.fastSeconds)
  }

  /** The row has a time, and that is not before the window. */
  predicate InTime(cfg: Config, row: LogRow, now: Time) {
    row.Parsed? && row.createdAt > 0 && now <= row.createdAt + cfg.windowSeconds
  }

  lemma {:induction false} InWindowShows(cfg: Config, rows: seq<LogRow>, now: Time, p: Point)
    ensures p in InWindow(cfg, rows, now) <==>
      exists i :: 0 <= i < |rows| && InTime(cfg, rows[i], now) && ShowsRow(cfg, rows[i], now, p)
  {
    if rows != [] {
      InWindowShows(cfg, rows[1..], now, p);
      if i :| 0 <= i < |rows| && InTime(cfg, rows[i], now) && ShowsRow(cfg, rows[i], now, p) {
        assert i > 0 ==> rows[1..][i - 1] == rows[i];
      }
      if i :| 0 <= i < |rows[1..]| && InTime(cfg, rows[1..][i], now) && ShowsRow(cfg, rows[1..][i], now, p) {
        assert rows[i + 1] == rows[1..][i];
      }
    }
  }

  lemma {:induction false} InWindowNewestFirst(cfg: Config, rows: seq<LogRow>, now: Time)
    requires NewestFirst(rows)
    ensures var points := InWindow(cfg, rows, now);
            forall i, j :: 0 <= i < j < |points| ==> points[j].createdAt <= points[i].createdAt
  {
    if rows != [] {
      assert NewestFirst(rows[1..]);
      InWindowNewestFirst(cfg, rows[1..], now);
      var rest := InWindow(cfg, rows[1..], now);
      forall j | 0 <= j < |rest| && Usable(rows[0]) ensures rest[j].createdAt <= rows[0].createdAt {
        InWindowShows(cfg, rows[1..], now, rest[j]);
        assert rest[j] in rest;
        var i :| 0 <= i < |rows[1..]| && InTime(cfg, rows[1..][i], now) && ShowsRow(cfg, rows[1..][i], now, rest[j]);
        assert rows[i + 1] == rows[1..][i];
      }
    }
  }

  /** An entry built from newest-first rows shows exactly the rows inside the window, newest first, each
      as old, stale and slow as it is; the channel is active if there are any. */
  lemma BuiltShows(cfg: Config, channel: nat, rows: seq<LogRow>, now: Time)
    requires NewestFirst(rows)
    ensures var e := Built(cfg, channel, rows, now);
            && e.channel == channel
            && (forall p :: p in e.requests <==>
                  exists i :: 0 <= i < |rows| && InTime(cfg, rows[i], now) && ShowsRow(cfg, rows[i], now, p))
            && (forall i, j :: 0 <= i < j < |e.requests| ==> e.requests[j].createdAt <= e.requests[i].createdAt)
            && e.state == if exists i :: 0 <= i < |rows| && InTime(cfg, rows[i], now) then Active else Idle
  {
    PointsAreInWindow(cfg, rows, now);
    InWindowNewestFirst(cfg, rows, now);
    var e := Built(cfg, channel, rows, now);
    forall p ensures p in e.requests <==>
      exists i :: 0 <= i < |rows| && InTime(cfg, rows[i], now) && ShowsRow(cfg, rows[i], now, p)
    {
      InWindowShows(cfg, rows, now, p);
    }
    if e.requests != [] {
      assert e.requests[0] in e.requests;
    }
    if i :| 0 <= i < |rows| && InTime(cfg, rows[i], now) {
      HoldsSome(cfg, rows, now, i);
    }
  }

  /** An entry that is not active is served as it is; an active one keeps exactly the points that are still
      in the window, and is idle once none is. */
  lemma ServedLater(cfg: Config, e: Entry, now: Time)
    ensures !e.state.Active? ==> Rederived(cfg, e, now) == e
    ensures e.state.Active? ==>
      var r := Rederived(cfg, e, now);
      && r.channel == e.channel
      && r.state == (if exists p :: p in e.requests && now <= p.createdAt + cfg.windowSeconds then Active else Idle)
  {
    if e.state.Active? {
      KeptIff(cfg, e.requests, now);
    }
  }

  lemma {:induction false} KeptIff(cfg: Config, points: seq<Point>, now: Time)
    ensures Kept(cfg, points, now) != [] <==> exists p :: p in points && now <= p.createdAt + cfg.windowSeconds
  {
    if points != [] {
      KeptIff(cfg, points[1..], now);
      assert points == [points[0]] + points[1..];
    }
  }
}
