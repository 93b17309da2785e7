/** The shared session of a sub2api main site.  Requests that are rejected ask for a new access token
    and name the one that was rejected; calls run one at a time under the site's lock.

    Tokens are numbers in the order the upstream issues them; 0 is the empty string. */
module AdminSession {

  import opened Sets

  type Token = nat

  const EMPTY: Token := 0
  const EXPIRY_SKEW_SECONDS := 60

  /** The session columns of `admin_sites`, and the upstream's supply of fresh tokens. */
  datatype Session = Session(access: Token, refresh: Token, expiresAt: int, next: Token)

  /** A refresh may come back without an access token, or keep the refresh token. */
  datatype Refreshed = RefreshFailed | Refreshed(givesAccess: bool, givesRefresh: bool, expiresIn: nat)

  /** A login counts only with both tokens. */
  datatype Login = LoginFailed | LoggedIn(expiresIn: nat)

  datatype Call = Call(force: bool, rejected: Token, now: int, refresh: Refreshed, login: Login)

  datatype Answer = Token(token: Token, reissued: bool) | Error

  /** Another access token than the rejected one is already there. */
  predicate Replaced(s: Session, c: Call) {
    c.force && s.access != EMPTY && c.rejected != EMPTY && s.access != c.rejected
  }

  predicate Fresh(s: Session, c: Call) {
    s.access != EMPTY && !c.force && s.expiresAt > c.now + EXPIRY_SKEW_SECONDS
  }

  predicate Refreshes(s: Session, c: Call) {
    s.refresh != EMPTY && c.refresh.Refreshed? && c.refresh.givesAccess
  }

  /** A session as it stands after issuing a pair. */
  function Issued(s: Session, keepRefresh: bool, expiresAt: int): Session {
    Session(s.next, if keepRefresh then s.refresh else s.next + 1, expiresAt, s.next + 2)
  }

  /** A refresh that came back without an access token still used up fresh tokens. */
  function LoginBase(s: Session, c: Call): Session {
    if s.refresh != EMPTY && c.refresh.Refreshed? then s.(next := s.next + 1) else s
  }

  /** `ensure_sub2api_admin_session` */
  function Ensured(s: Session, c: Call): (Session, Answer) {
    if Replaced(s, c) || Fresh(s, c) then (s, Answer.Token(s.access, false))
    else if Refreshes(s, c) then
      (Issued(s, !c.refresh.givesRefresh, c.now + c.refresh.expiresIn), Answer.Token(s.next, true))
    else
      var t := LoginBase(s, c);
      if c.login.LoginFailed? then (t, Error)
      else (Issued(t, false, c.now + c.login.expiresIn), Answer.Token(t.next, true))
  }

  class Sessions {
    var access: Token
    var refresh: Token
    var expiresAt: int
    var next: Token

    function Contents(): Session
      reads this
    {
      Session(access, refresh, expiresAt, next)
    }

    /** The upstream issues a fresh token. */
    method Issue() returns (t: Token)
      modifies `next
      ensures t == old(next) && next == old(next) + 1
    {
      t := next;
      next := next + 1;
    }

    method Ensure(c: Call) returns (answer: Answer)
      modifies this
      ensures (Contents(), answer) == Ensured(old(Contents()), c)
    {
      if c.force && access != EMPTY && c.rejected != EMPTY && access != c.rejected {
        return Answer.Token(access, false);
      }
      if access != EMPTY && !c.force && expiresAt > c.now + EXPIRY_SKEW_SECONDS {
        return Answer.Token(access, false);
      }
      if refresh != EMPTY && c.refresh.Refreshed? {
        var first := Issue();
        if c.refresh.givesAccess {
          var second := Issue();
          access := first;
          refresh := if c.refresh.givesRefresh then second else refresh;
          expiresAt := c.now + c.refresh.expiresIn;
          return Answer.Token(access, true);
        }
      }
      if c.login.LoginFailed? {
        return Error;
      }
      access := Issue();
      refresh := Issue();
      expiresAt := c.now + c.login.expiresIn;
      return Answer.Token(access, true);
    }
  }

  // ---------------------------------------------------------------------------------------
  // Runs
  // ---------------------------------------------------------------------------------------

  /** A user who changes the credentials stores the pair of a login of his own. */
  datatype Event = Ensure(call: Call) | Edited(expiresAt: int)

  function After(s: Session, e: Event): Session {
    match e
    case Ensure(c) => Ensured(s, c).0
    case Edited(expiresAt) => Issued(s, false, expiresAt)
  }

  function AfterRun(s: Session, run: seq<Event>): Session {
    if run == [] then s else After(AfterRun(s, run[..|run| - 1]), run[|run| - 1])
  }

  ghost predicate Sound(s: Session) {
    0 < s.next && s.access < s.next
  }

  /** Callers name only tokens that had been issued. */
  ghost predicate RunOk(s: Session, run: seq<Event>) {
    forall k :: 0 <= k < |run| && run[k].Ensure? ==> run[k].call.rejected < AfterRun(s, run[..k]).next
  }

  /** The call was caused by the rejection of `t` and had a new token issued. */
  predicate ReissuedFor(s: Session, e: Event, t: Token) {
    e.Ensure? && e.call.force && e.call.rejected == t &&
    var answer := Ensured(s, e.call).1;
    answer.Token? && answer.reissued
  }

  /** The number of reissues the rejection of `t` caused. */
  function Reissues(s: Session, run: seq<Event>, t: Token): nat {
    if run == [] then 0
    else
      var n := |run| - 1;
      Reissues(s, run[..n], t) + (if ReissuedFor(AfterRun(s, run[..n]), run[n], t) then 1 else 0)
  }

  /** What a caller gets is a token that was issued, and never the one it had rejected. */
  lemma AnswerIsIssued(s: Session, c: Call)
    requires Sound(s) && c.rejected < s.next
    ensures Sound(Ensured(s, c).0)
    ensures var (after, answer) := Ensured(s, c);
            answer.Token? ==>
              && 0 < answer.token < after.next && answer.token == after.access
              && (c.force && c.rejected != EMPTY ==> answer.token != c.rejected)
              && (answer.reissued ==> s.next <= answer.token)
  {
  }

  lemma {:induction false} RunSound(s: Session, run: seq<Event>)
    requires Sound(s)
    ensures Sound(AfterRun(s, run)) && s.next <= AfterRun(s, run).next
  {
    if run != [] {
      RunSound(s, run[..|run| - 1]);
    }
  }

  /** The session moved on from `t`. */
  predicate Past(s: Session, t: Token) {
    s.access != EMPTY && s.access != t && t < s.next
  }

  lemma StaysPast(s: Session, e: Event, t: Token)
    requires Past(s, t) && Sound(s)
    ensures Past(After(s, e), t)
    ensures t != EMPTY ==> !ReissuedFor(s, e, t)
  {
  }

  lemma {:induction false} OnePerToken(s: Session, run: seq<Event>, t: Token)
    requires Sound(s) && RunOk(s, run) && t != EMPTY
    ensures Reissues(s, run, t) <= 1
    ensures Reissues(s, run, t) == 1 ==> Past(AfterRun(s, run), t)
  {
    if run != [] {
      var n := |run| - 1;
      forall k | 0 <= k < n ensures run[..n][..k] == run[..k] {}
      OnePerToken(s, run[..n], t);
      RunSound(s, run[..n]);
      var mid := AfterRun(s, run[..n]);
      if Past(mid, t) {
        StaysPast(mid, run[n], t);
      }
    }
  }

  /** All reissues caused by rejections, and the tokens that were rejected. */
  function AllReissues(s: Session, run: seq<Event>): nat {
    if run == [] then 0
    else
      var n := |run| - 1;
      AllReissues(s, run[..n]) +
      (if run[n].Ensure? && run[n].call.rejected != EMPTY
          && ReissuedFor(AfterRun(s, run[..n]), run[n], run[n].call.rejected) then 1 else 0)
  }

  function RejectedTokens(run: seq<Event>): set<Token> {
    if run == [] then {}
    else
      var e := run[|run| - 1];
      RejectedTokens(run[..|run| - 1]) +
      (if e.Ensure? && e.call.force && e.call.rejected != EMPTY then {e.call.rejected} else {})
  }

  /** The rejected tokens that did cause a reissue. */
  function ReplacedTokens(s: Session, run: seq<Event>): set<Token> {
    if run == [] then {}
    else
      var n := |run| - 1;
      var e := run[n];
      ReplacedTokens(s, run[..n]) +
      (if e.Ensure? && e.call.rejected != EMPTY && ReissuedFor(AfterRun(s, run[..n]), e, e.call.rejected)
       then {e.call.rejected} else {})
  }

  lemma {:induction false} ReplacedIff(s: Session, run: seq<Event>, t: Token)
    requires t != EMPTY
    ensures t in ReplacedTokens(s, run) <==> Reissues(s, run, t) > 0
  {
    if run != [] {
      ReplacedIff(s, run[..|run| - 1], t);
    }
  }

  lemma {:induction false} EachReplacedOnce(s: Session, run: seq<Event>)
    requires Sound(s) && RunOk(s, run)
    ensures AllReissues(s, run) == |ReplacedTokens(s, run)|
    ensures ReplacedTokens(s, run) <= RejectedTokens(run)
  {
    if run != [] {
      var n := |run| - 1;
      forall k | 0 <= k < n ensures run[..n][..k] == run[..k] {}
      EachReplacedOnce(s, run[..n]);
      if run[n].Ensure? && run[n].call.rejected != EMPTY {
        OnePerToken(s, run, run[n].call.rejected);
        ReplacedIff(s, run[..n], run[n].call.rejected);
      }
    }
  }

  /** However many requests are rejected and however their calls interleave with expiries and edits,
      no rejected token causes two reissues, so there are no more reissues than rejected tokens. */
  lemma ReissuesBounded(s: Session, run: seq<Event>)
    requires Sound(s) && RunOk(s, run)
    ensures AllReissues(s, run) <= |RejectedTokens(run)|
  {
    EachReplacedOnce(s, run);
    SubsetSize(ReplacedTokens(s, run), RejectedTokens(run));
  }

  /** Without the name of the rejected token there is no such bound: each forced call reissues. */
  lemma NamelessRejectionsRepeat(s: Session, c: Call)
    requires c.force && c.rejected == EMPTY && c.login.LoggedIn?
    ensures Ensured(s, c).1.Token? && Ensured(s, c).1.reissued
  {
  }

  // ---------------------------------------------------------------------------------------
  // Expiry
  // ---------------------------------------------------------------------------------------

  /** The stored token is handed out exactly if there is one and, for an ordinary call, it is good for
      more than a minute, or, for one that names a rejected token, it is another; and then nothing
      changes. */
  lemma StoredTokenIff(s: Session, c: Call)
    requires Sound(s)
    ensures var (after, answer) := Ensured(s, c);
            && (answer.Token? && !answer.reissued <==>
                  s.access != EMPTY &&
                  if c.force then c.rejected != EMPTY && c.rejected != s.access else s.expiresAt > c.now + 60)
            && (answer.Token? && !answer.reissued ==> answer.token == s.access && after == s)
  {
  }

  /** How long the token of the reply is good for that a call without a usable stored token gets: that of
      the refresh, if there is a refresh token and the reply has an access token, or else of the login. */
  function Lifetime(s: Session, c: Call): nat
    requires c.login.LoggedIn? || (s.refresh != EMPTY && c.refresh.Refreshed? && c.refresh.givesAccess)
  {
    if s.refresh != EMPTY && c.refresh.Refreshed? && c.refresh.givesAccess then c.refresh.expiresIn else c.login.expiresIn
  }

  /** Otherwise a new token is issued, by the refresh if that works and else by a login.  Only a refresh
      that gave none keeps the refresh token.  If neither works the session stays as it was. */
  lemma NewTokenShows(s: Session, c: Call)
    requires Sound(s) && !(Ensured(s, c).1.Token? && !Ensured(s, c).1.reissued)
    ensures var (after, answer) := Ensured(s, c);
            var renews := s.refresh != EMPTY && c.refresh.Refreshed? && c.refresh.givesAccess;
            && (answer.Error? <==> !renews && c.login.LoginFailed?)
            && (answer.Error? ==> after == s.(next := after.next))
            && (answer.Token? ==>
                  && after.access == answer.token && s.next <= answer.token < after.next
                  && after.expiresAt == c.now + Lifetime(s, c)
                  && if renews && !c.refresh.givesRefresh then after.refresh == s.refresh
                     else s.next <= after.refresh < after.next && after.refresh != after.access)
  {
  }

  /** The step issued this token, which is good until then. */
  predicate IssuedUntil(s: Session, e: Event, token: Token, until: int) {
    && e.Ensure? && Ensured(s, e.call).1 == Answer.Token(token, true)
    && (e.call.login.LoggedIn? || (s.refresh != EMPTY && e.call.refresh.Refreshed? && e.call.refresh.givesAccess))
    && until == e.call.now + Lifetime(s, e.call)
  }

  ghost predicate IssuedDuring(s: Session, run: seq<Event>, token: Token, until: int) {
    exists j :: 0 <= j < |run| && IssuedUntil(AfterRun(s, run[..j]), run[j], token, until)
  }

  ghost predicate NoEdits(run: seq<Event>) {
    forall k :: 0 <= k < |run| ==> run[k].Ensure?
  }

  lemma {:induction false} ExpiryBelongs(s: Session, run: seq<Event>)
    requires Sound(s) && NoEdits(run)
    ensures var now := AfterRun(s, run);
            IssuedDuring(s, run, now.access, now.expiresAt) || (now.access == s.access && now.expiresAt == s.expiresAt)
  {
    if run != [] {
      var n := |run| - 1;
      var mid, now := AfterRun(s, run[..n]), AfterRun(s, run);
      ExpiryBelongs(s, run[..n]);
      RunSound(s, run[..n]);
      var c := run[n].call;
      if Ensured(mid, c).1.Token? && Ensured(mid, c).1.reissued {
        NewTokenShows(mid, c);
        assert IssuedUntil(AfterRun(s, run[..n]), run[n], now.access, now.expiresAt);
      } else {
        KeptByCall(mid, c);
        if j :| 0 <= j < n && IssuedUntil(AfterRun(s, run[..n][..j]), run[..n][j], mid.access, mid.expiresAt) {
          assert run[..n][..j] == run[..j];
        }
      }
    }
  }

  lemma KeptByCall(s: Session, c: Call)
    requires !(Ensured(s, c).1.Token? && Ensured(s, c).1.reissued)
    ensures Ensured(s, c).0.access == s.access && Ensured(s, c).0.expiresAt == s.expiresAt
  {
  }

  /** Over any run without edits, a token that an ordinary call gets from the store was issued during the
      run, by a reply whose lifetime ends more than a minute after the call; or it was there from the
      start and is good for that long. */
  lemma HandedOutIsGood(s: Session, run: seq<Event>, c: Call) returns (until: int)
    requires Sound(s) && NoEdits(run) && !c.force
    requires var answer := Ensured(AfterRun(s, run), c).1; answer.Token? && !answer.reissued
    ensures var token := Ensured(AfterRun(s, run), c).1.token;
            && until > c.now + 60
            && (IssuedDuring(s, run, token, until) || (token == s.access && until == s.expiresAt))
  {
    RunSound(s, run);
    ExpiryBelongs(s, run);
    StoredTokenIff(AfterRun(s, run), c);
    until := AfterRun(s, run).expiresAt;
  }
}
