/** One-time relay tokens (sessionManager.ts): created, consumed at most once, and
    swept away when nobody comes for them. */
module Sessions {
  import opened Wrappers

  type Token = string

  const SESSION_TTL_MS := 60_000
  const MAX_SESSION_LIFETIME_MS := 4 * 60 * 60 * 1000
  const SWEEP_EVERY_MS := 30_000

  const CHANNELS: set<nat> := {1, 2, 3, 4, 5, 200}
  const TERMINAL: nat := 1

  datatype RelaySession = RelaySession(token: Token, deviceId: string, userId: Option<string>, channel: nat,
                                       rights: nat, createdAt: int, expiresAt: int, used: bool)

  type Table = map<Token, RelaySession>

  /** The clock is read twice, at now and then at later. */
  function NewSession(token: Token, deviceId: string, channel: nat, rights: nat, userId: Option<string>,
                      now: int, later: int): (s: RelaySession)
    ensures s.channel in CHANNELS && s.expiresAt - later == MAX_SESSION_LIFETIME_MS
  {
    RelaySession(token, deviceId, userId, if channel in CHANNELS then channel else TERMINAL, rights,
                 now, later + MAX_SESSION_LIFETIME_MS, false)
  }

  predicate Overdue(s: RelaySession, now: int) {
    !s.used && now - s.createdAt > SESSION_TTL_MS
  }

  function Swept(table: Table, now: int): Table {
    map t | t in table && !Overdue(table[t], now) :: table[t]
  }

  /** What consuming a token yields. */
  function Taken(table: Table, token: Token, now: int): Option<RelaySession> {
    if token in table && now <= table[token].expiresAt then Some(table[token].(used := true)) else None
  }

  class SessionManager {
    var sessions: Table

    constructor ()
      ensures sessions == map[]
    {
      sessions := map[];
    }

    method Create(token: Token, deviceId: string, channel: nat, rights: nat, userId: Option<string>,
                  online: bool, now: int, later: int)
      returns (r: Result<RelaySession, string>)
      modifies this
      ensures !online ==> r.Failure? && sessions == old(sessions)
      ensures online ==> r == Success(NewSession(token, deviceId, channel, rights, userId, now, later))
                         && sessions == old(sessions)[token := r.value]
    {
      if !online {
        return Failure("device offline");
      }
      var ch := channel;
      if ch !in CHANNELS {
        ch := TERMINAL;
      }
      var s := RelaySession(token, deviceId, userId, ch, rights, now, later + MAX_SESSION_LIFETIME_MS, false);
      sessions := sessions[token := s];
      return Success(s);
    }

    /** A token asked for is gone, whether or not it was still good. */
    method Consume(token: Token, now: int) returns (r: Option<RelaySession>)
      modifies this
      ensures r == Taken(old(sessions), token, now)
      ensures sessions == old(sessions) - {token}
    {
      if token !in sessions {
        return None;
      }
      var s := sessions[token];
      sessions := sessions - {token};
      if now > s.expiresAt {
        return None;
      }
      return Some(s.(used := true));
    }

    method Sweep(now: int)
      modifies this
      ensures sessions == Swept(old(sessions), now)
    {
      var left := sessions.Keys;
      while left != {}
        invariant left <= sessions.Keys <= old(sessions).Keys
        invariant forall t :: t in sessions ==> sessions[t] == old(sessions)[t]
        invariant forall t :: t in old(sessions) && t !in left ==>
                    (t in sessions <==> !Overdue(old(sessions)[t], now))
        decreases |left|
      {
        var t :| t in left;
        left := left - {t};
        if !sessions[t].used && now - sessions[t].createdAt > SESSION_TTL_MS {
          sessions := sessions - {t};
        }
      }
    }
  }

  // ---------- runs ----------

  datatype Event =
    | Create(token: Token, deviceId: string, channel: nat, rights: nat, userId: Option<string>,
             online: bool, now: int, later: int)
    | Consume(token: Token, now: int)
    | Sweep(now: int)

  function Step(table: Table, e: Event): Table {
    match e
    case Create(token, deviceId, channel, rights, userId, online, now, later) =>
      if online then table[token := NewSession(token, deviceId, channel, rights, userId, now, later)] else table
    case Consume(token, _) => table - {token}
    case Sweep(now) => Swept(table, now)
  }

  /** The table after the first n events. */
  function At(run: seq<Event>, n: nat): Table
    requires n <= |run|
  {
    if n == 0 then map[] else Step(At(run, n - 1), run[n - 1])
  }

  predicate Timely(run: seq<Event>) {
    forall i, j :: 0 <= i < j < |run| ==> run[i].now <= run[j].now
  }

  predicate Creates(e: Event, token: Token) {
    e.Create? && e.online && e.token == token
  }

  /** 24 random bytes do not come twice. */
  ghost predicate UniqueTokens(run: seq<Event>) {
    forall i, j, t :: 0 <= i < j < |run| && Creates(run[i], t) ==> !Creates(run[j], t)
  }

  /** Event e ends the life of a token created at born. */
  predicate Ends(e: Event, token: Token, born: int) {
    (e.Consume? && e.token == token) || (e.Sweep? && e.now - born > SESSION_TTL_MS)
  }

  /** Created by event c, and nothing since has ended it. */
  predicate AliveFrom(run: seq<Event>, c: nat, n: nat, token: Token)
    requires n <= |run|
  {
    c < n && Creates(run[c], token) && forall j :: c < j < n ==> !Ends(run[j], token, run[c].now)
  }

  function SessionOf(e: Event): RelaySession
    requires e.Create?
  {
    NewSession(e.token, e.deviceId, e.channel, e.rights, e.userId, e.now, e.later)
  }

  /** The table holds exactly the tokens that are alive, unused and as created. */
  lemma {:induction false} StoredIffAlive(run: seq<Event>, n: nat, token: Token)
    requires n <= |run| && UniqueTokens(run)
    ensures token in At(run, n) <==> exists c: nat :: AliveFrom(run, c, n, token)
    ensures token in At(run, n) ==>
              exists c: nat :: AliveFrom(run, c, n, token) && At(run, n)[token] == SessionOf(run[c])
  {
    if n > 0 {
      StoredIffAlive(run, n - 1, token);
      var e := run[n - 1];
      if Creates(e, token) {
        assert AliveFrom(run, n - 1, n, token);
      } else {
        forall c: nat | c < n
          ensures AliveFrom(run, c, n, token) <==>
                    c < n - 1 && AliveFrom(run, c, n - 1, token) && !Ends(e, token, run[c].now)
        {
        }
        if token in At(run, n - 1) {
          var c: nat :| AliveFrom(run, c, n - 1, token) && At(run, n - 1)[token] == SessionOf(run[c]);
          OnlyOne(run, n - 1, token, c);
          if !Ends(e, token, run[c].now) {
            assert AliveFrom(run, c, n, token);
          }
        }
      }
    }
  }

  lemma OnlyOne(run: seq<Event>, n: nat, token: Token, c: nat)
    requires n <= |run| && UniqueTokens(run) && AliveFrom(run, c, n, token)
    ensures forall d: nat :: AliveFrom(run, d, n, token) ==> d == c
  {
  }

  /** Event k is a consume of the token, and it gets the session. */
  predicate Redeemed(run: seq<Event>, k: nat, token: Token) {
    k < |run| && run[k].Consume? && run[k].token == token && Taken(At(run, k), token, run[k].now).Some?
  }

  /** A consume succeeds exactly when the token was created, nobody consumed it, no
      sweep since found it over 60 s old, and the 4 h cap has not passed. Its own
      age is not otherwise looked at. */
  lemma RedeemedIff(run: seq<Event>, k: nat, token: Token)
    requires UniqueTokens(run)
    requires k < |run| && run[k].Consume? && run[k].token == token
    ensures Redeemed(run, k, token) <==>
              exists c: nat :: AliveFrom(run, c, k, token) && run[k].now <= run[c].later + 14_400_000
  {
    StoredIffAlive(run, k, token);
    if token in At(run, k) {
      var c: nat :| AliveFrom(run, c, k, token) && At(run, k)[token] == SessionOf(run[c]);
      OnlyOne(run, k, token, c);
    }
  }

  /** What it yields is the session asked for when the token was created: that device,
      user and rights, on that channel if there is one of that number and on the
      terminal otherwise, good for 4 h. */
  lemma RedeemedSession(run: seq<Event>, k: nat, token: Token)
    requires UniqueTokens(run) && Redeemed(run, k, token)
    ensures exists c: nat ::
              && c < k && run[c].Create? && run[c].online && run[c].token == token
              && var s := Taken(At(run, k), token, run[k].now).value;
                 && s.token == token && s.deviceId == run[c].deviceId
                 && s.userId == run[c].userId && s.rights == run[c].rights
                 && (run[c].channel in {1, 2, 3, 4, 5, 200} ==> s.channel == run[c].channel)
                 && (run[c].channel !in {1, 2, 3, 4, 5, 200} ==> s.channel == 1)
                 && s.createdAt == run[c].now && s.expiresAt == run[c].later + 14_400_000 && s.used
                 && run[k].now <= run[c].later + 14_400_000
  {
    StoredIffAlive(run, k, token);
    var c: nat :| AliveFrom(run, c, k, token) && At(run, k)[token] == SessionOf(run[c]);
    assert Creates(run[c], token);
  }

  lemma ConsumedAtMostOnce(run: seq<Event>, i: nat, j: nat, token: Token)
    requires UniqueTokens(run)
    requires Redeemed(run, i, token) && Redeemed(run, j, token)
    ensures i == j
  {
    RedeemedIff(run, i, token);
    RedeemedIff(run, j, token);
    var c: nat :| AliveFrom(run, c, i, token);
    var d: nat :| AliveFrom(run, d, j, token);
    assert Creates(run[c], token) && Creates(run[d], token);
    assert Ends(run[i], token, run[c].now) && Ends(run[j], token, run[c].now);
  }

  /** Right after a sweep nothing stored is over 60 s old. */
  lemma FreshAfterSweep(run: seq<Event>, n: nat, token: Token)
    requires UniqueTokens(run)
    requires 0 < n <= |run| && run[n - 1].Sweep? && token in At(run, n)
    ensures run[n - 1].now - At(run, n)[token].createdAt <= 60_000
  {
    StoredIffAlive(run, n - 1, token);
  }

  /** The 30 s interval fired on time, from the start of the run to event k. */
  predicate SweptBefore(run: seq<Event>, start: int, k: nat)
    requires k < |run|
  {
    || run[k].now - start <= SWEEP_EVERY_MS
    || exists j: nat :: j < k && run[j].Sweep? && run[k].now - run[j].now <= SWEEP_EVERY_MS
  }

  /** With sweeps at most 30 s apart, no consumed token is over 90 s old. */
  lemma NinetySeconds(run: seq<Event>, start: int, k: nat, token: Token)
    requires Timely(run) && UniqueTokens(run)
    requires forall i :: 0 <= i < |run| ==> start <= run[i].now
    requires Redeemed(run, k, token) && SweptBefore(run, start, k)
    ensures run[k].now - Taken(At(run, k), token, run[k].now).value.createdAt <= 90_000
  {
    StoredIffAlive(run, k, token);
    var c: nat :| AliveFrom(run, c, k, token) && At(run, k)[token] == SessionOf(run[c]);
    if run[k].now - start > SWEEP_EVERY_MS {
      var j: nat :| j < k && run[j].Sweep? && run[k].now - run[j].now <= SWEEP_EVERY_MS;
      if c < j {
        assert !Ends(run[j], token, run[c].now);
      }
    }
  }

  /** And 90 s is reached: the age limit of 60 s is not kept by consume. */
  lemma NinetyIsReached(t: Token)
    ensures var run := [Create(t, "d", 1, 0, None, true, 0, 0), Sweep(30_000), Sweep(60_000), Consume(t, 90_000)];
            && Timely(run) && UniqueTokens(run)
            && (forall k: nat :: k < |run| ==> SweptBefore(run, 0, k))
            && Redeemed(run, 3, t)
            && run[3].now - Taken(At(run, 3), t, run[3].now).value.createdAt == 90_000
  {
    var run := [Create(t, "d", 1, 0, None, true, 0, 0), Sweep(30_000), Sweep(60_000), Consume(t, 90_000)];
    assert run[1].Sweep? && run[2].Sweep?;
    forall k: nat | k < |run|
      ensures SweptBefore(run, 0, k)
    {
      if k == 2 {
        assert run[k].now - run[1].now <= SWEEP_EVERY_MS;
      } else if k == 3 {
        assert run[k].now - run[2].now <= SWEEP_EVERY_MS;
      }
    }
    assert At(run, 0) == map[];
    assert t in At(run, 1) && At(run, 1)[t] == SessionOf(run[0]);
    assert t in At(run, 2) && At(run, 2)[t] == SessionOf(run[0]);
    assert t in At(run, 3) && At(run, 3)[t] == SessionOf(run[0]);
  }
}
