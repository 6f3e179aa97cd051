/**
 The session table (internal/auth/session.go): sessions end after an idle span or a lifetime, and are
 removed lazily, on use or on the next login. A token stands for its keyed hash.
 */
module SessionTables {
  import opened Prelude

  datatype Session = Session(created: Time, lastActive: Time)

  datatype Policy = Policy(idle: Time, lifetime: Time)

  const CAPACITY: nat := 10000

  predicate Stale(s: Session, now: Time, p: Policy) {
    now - s.lastActive > p.idle || now - s.created > p.lifetime
  }

  function Swept(items: map<string, Session>, now: Time, p: Policy): map<string, Session> {
    map k | k in items && !Stale(items[k], now, p) :: items[k]
  }

  /** A login finds room once the stale sessions are gone. */
  predicate HasRoom(items: map<string, Session>, now: Time, p: Policy) {
    |Swept(items, now, p)| < CAPACITY
  }

  function Created(items: map<string, Session>, token: string, now: Time, p: Policy): map<string, Session> {
    if HasRoom(items, now, p) then Swept(items, now, p)[token := Session(now, now)] else Swept(items, now, p)
  }

  predicate Accepts(items: map<string, Session>, token: string, now: Time, p: Policy) {
    token in items && !Stale(items[token], now, p)
  }

  function Used(items: map<string, Session>, token: string, now: Time, p: Policy): map<string, Session> {
    if Accepts(items, token, now, p) then items[token := items[token].(lastActive := now)] else items - {token}
  }

  class Sessions {
    const policy: Policy
    var items: map<string, Session>

    constructor (idle: Time, lifetime: Time)
      ensures policy == Policy(idle, lifetime) && items == map[]
    {
      policy, items := Policy(idle, lifetime), map[];
    }

    /** None is the capacity error. */
    method Create(token: string, now: Time) returns (session: Option<Session>)
      modifies this`items
      ensures items == Created(old(items), token, now, policy)
      ensures session == if HasRoom(old(items), now, policy) then Some(Session(now, now)) else None
    {
      CleanupLocked(now);
      if |items| >= CAPACITY {
        return None;
      }
      items := items[token := Session(now, now)];
      session := Some(items[token]);
    }

    /** A request without a cookie has no session; None is also the answer for an ended one. */
    method Get(cookie: Option<string>, now: Time) returns (session: Option<Session>)
      modifies this`items
      ensures cookie.None? ==> items == old(items) && session == None
      ensures cookie.Some? ==>
                && items == Used(old(items), cookie.value, now, policy)
                && session == if Accepts(old(items), cookie.value, now, policy) then Some(items[cookie.value]) else None
    {
      if cookie.None? {
        return None;
      }
      var key := cookie.value;
      if key !in items || now - items[key].lastActive > policy.idle || now - items[key].created > policy.lifetime {
        items := items - {key};
        return None;
      }
      items := items[key := items[key].(lastActive := now)];
      session := Some(items[key]);
    }

    method Delete(cookie: Option<string>)
      modifies this`items
      ensures items == if cookie.Some? then old(items) - {cookie.value} else old(items)
    {
      if cookie.Some? {
        items := items - {cookie.value};
      }
    }

    method CleanupLocked(now: Time)
      modifies this`items
      ensures items == Swept(old(items), now, policy)
    {
      var keys := items.Keys;
      while keys != {}
        invariant keys <= items.Keys
        invariant items == map k | k in old(items) && (k in keys || !Stale(old(items)[k], now, policy)) :: old(items)[k]
        decreases |keys|
      {
        var k :| k in keys;
        keys := keys - {k};
        if now - items[k].lastActive > policy.idle || now - items[k].created > policy.lifetime {
          items := items - {k};
        }
      }
    }
  }

  // ----- runs -----

  datatype Op = Create(token: string, now: Time) | Get(token: string, now: Time) | Delete(token: string)

  function Next(items: map<string, Session>, op: Op, p: Policy): map<string, Session> {
    match op
    case Create(token, now) => Created(items, token, now, p)
    case Get(token, now) => Used(items, token, now, p)
    case Delete(token) => items - {token}
  }

  function After(run: seq<Op>, p: Policy): map<string, Session> {
    if run == [] then map[] else Next(After(Init(run), p), Last(run), p)
  }

  /** No operation of the run is later than an instant, nor earlier than the one before it. */
  predicate MonotoneUntil(run: seq<Op>, now: Time) {
    run == [] || (if Last(run).Delete? then MonotoneUntil(Init(run), now)
                  else Last(run).now <= now && MonotoneUntil(Init(run), Last(run).now))
  }

  lemma {:induction false} LaterStillMonotone(run: seq<Op>, now: Time, later: Time)
    requires MonotoneUntil(run, now) && now <= later
    ensures MonotoneUntil(run, later)
  {
    if run != [] && Last(run).Delete? {
      LaterStillMonotone(Init(run), now, later);
    }
  }

  lemma {:induction false} TableIsBounded(run: seq<Op>, p: Policy)
    ensures |After(run, p)| <= 10000
  {
    if run != [] {
      TableIsBounded(Init(run), p);
      var items, token := After(Init(run), p), Last(run).token;
      if !Last(run).Create? {
        assert (items - {token}).Keys == items.Keys - {token};
        assert |(items - {token}).Keys| == |items - {token}| && |items.Keys| == |items|;
      } else if !HasRoom(items, Last(run).now, p) {
        FewerKeys(Swept(items, Last(run).now, p), items);
      }
    }
  }

  // ----- the history specification -----

  predicate Unbroken(uses: seq<Time>, idle: Time) {
    forall i | 0 < i < |uses| :: uses[i] - uses[i - 1] <= idle
  }

  /** The session is live: issued, within its lifetime, and never idle for too long, up to now. */
  predicate Live(uses: seq<Time>, now: Time, p: Policy) {
    && uses != []
    && now - uses[0] <= p.lifetime
    && Unbroken(uses + [now], p.idle)
  }

  /**
   When the token was issued and presented: its login, then every use. Nothing before a login or after a
   logout; a login issues nothing while as many sessions are live as the table may hold.
   */
  function Uses(run: seq<Op>, token: string, p: Policy): seq<Time>
    decreases |run|, 0
  {
    if run == [] then []
    else
      var earlier := Uses(Init(run), token, p);
      if Last(run).token != token then earlier
      else
        match Last(run)
        case Create(_, now) => if |LiveTokens(Init(run), now, p)| < CAPACITY then [now] else earlier
        case Get(_, now) => if earlier == [] then [] else earlier + [now]
        case Delete(_) => []
  }

  /** The tokens with a live session at an instant. */
  function LiveTokens(run: seq<Op>, now: Time, p: Policy): set<string>
    decreases |run|, 1
  {
    set op | op in run && Live(Uses(run, op.token, p), now, p) :: op.token
  }

  /** Only tokens a run speaks of are live. */
  lemma {:induction false} LiveTokensAreAll(run: seq<Op>, token: string, now: Time, p: Policy)
    ensures token in LiveTokens(run, now, p) <==> Live(Uses(run, token, p), now, p)
  {
    if forall op | op in run :: op.token != token {
      NeverNamed(run, token, p);
    }
  }

  lemma {:induction false} NeverNamed(run: seq<Op>, token: string, p: Policy)
    requires forall op | op in run :: op.token != token
    ensures Uses(run, token, p) == []
  {
    if run != [] {
      assert Last(run) in run && forall op | op in Init(run) :: op in run;
      NeverNamed(Init(run), token, p);
    }
  }

  lemma OneMoreUse(uses: seq<Time>, now: Time, idle: Time)
    requires uses != []
    ensures Unbroken(uses + [now], idle) <==> Unbroken(uses, idle) && now - Last(uses) <= idle
  {
    var more := uses + [now];
    if Unbroken(more, idle) {
      forall i | 0 < i < |uses| ensures uses[i] - uses[i - 1] <= idle {
        assert more[i] - more[i - 1] <= idle;
      }
      assert more[|uses|] - more[|uses| - 1] <= idle;
    }
  }

  /** Once over, a session stays over. */
  lemma OverStaysOver(uses: seq<Time>, now: Time, later: Time, p: Policy)
    requires uses != [] && !Live(uses, now, p) && now <= later
    ensures !Live(uses, later, p) && !Live(uses + [now], later, p)
  {
    OneMoreUse(uses, now, p.idle);
    OneMoreUse(uses, later, p.idle);
    OneMoreUse(uses + [now], later, p.idle);
  }

  /** The table holds a token with its first and last use, or its session is over. */
  ghost predicate Knows(items: map<string, Session>, token: string, uses: seq<Time>, now: Time, p: Policy) {
    if token in items then uses != [] && Unbroken(uses, p.idle) && items[token] == Session(uses[0], Last(uses))
    else !Live(uses, now, p)
  }

  lemma AcceptsWhatIsLive(items: map<string, Session>, token: string, uses: seq<Time>, now: Time, p: Policy)
    requires Knows(items, token, uses, now, p)
    ensures Accepts(items, token, now, p) <==> Live(uses, now, p)
  {
    if uses != [] {
      OneMoreUse(uses, now, p.idle);
    }
  }

  lemma UseKeepsKnowledge(
      items: map<string, Session>, token: string, uses: seq<Time>, now: Time, later: Time, p: Policy)
    requires Knows(items, token, uses, now, p) && now <= later
    ensures Knows(Used(items, token, now, p), token, if uses == [] then [] else uses + [now], later, p)
  {
    AcceptsWhatIsLive(items, token, uses, now, p);
    if uses != [] {
      OneMoreUse(uses, now, p.idle);
      if !Live(uses, now, p) {
        OverStaysOver(uses, now, later, p);
      }
    }
  }

  lemma SweepKeepsKnowledge(
      items: map<string, Session>, token: string, uses: seq<Time>, now: Time, later: Time, p: Policy)
    requires Knows(items, token, uses, now, p) && now <= later
    ensures Knows(Swept(items, now, p), token, uses, later, p)
  {
    AcceptsWhatIsLive(items, token, uses, now, p);
    if uses != [] && !Live(uses, now, p) {
      OverStaysOver(uses, now, later, p);
    }
  }

  /** A login finds room exactly when fewer sessions are live than the table may hold. */
  lemma {:induction false} RoomIsLiveRoom(run: seq<Op>, now: Time, p: Policy)
    requires MonotoneUntil(run, now)
    ensures HasRoom(After(run, p), now, p) <==> |LiveTokens(run, now, p)| < 10000
    decreases |run|, 1
  {
    var items := After(run, p);
    forall token ensures token in Swept(items, now, p) <==> token in LiveTokens(run, now, p) {
      TableKnows(run, token, now, p);
      AcceptsWhatIsLive(items, token, Uses(run, token, p), now, p);
      LiveTokensAreAll(run, token, now, p);
    }
    assert Swept(items, now, p).Keys == LiveTokens(run, now, p);
    assert |Swept(items, now, p)| == |Swept(items, now, p).Keys|;
  }

  lemma {:induction false} TableKnows(run: seq<Op>, token: string, now: Time, p: Policy)
    requires MonotoneUntil(run, now)
    ensures Knows(After(run, p), token, Uses(run, token, p), now, p)
    decreases |run|, 0
  {
    if run != [] {
      var items, uses := After(Init(run), p), Uses(Init(run), token, p);
      match Last(run)
      case Delete(_) => TableKnows(Init(run), token, now, p);
      case Create(_, at) =>
        TableKnows(Init(run), token, at, p);
        RoomIsLiveRoom(Init(run), at, p);
        SweepKeepsKnowledge(items, token, uses, at, now, p);
      case Get(t, at) =>
        TableKnows(Init(run), token, at, p);
        if t == token {
          UseKeepsKnowledge(items, token, uses, at, now, p);
        } else if uses != [] && !Live(uses, at, p) {
          OverStaysOver(uses, at, now, p);
        }
    }
  }

  /**
   The session table refines its history: on a clock that never goes back, Get accepts a token exactly
   when it was issued and not deleted since, is within its lifetime, and was never idle for too long.
   The history knows nothing of the table, its cleanup and its lazy deletion: these never change an answer.
   */
  lemma {:induction false} AnswersFollowTheHistory(run: seq<Op>, token: string, now: Time, p: Policy)
    requires MonotoneUntil(run, now)
    ensures Accepts(After(run, p), token, now, p) <==> Live(Uses(run, token, p), now, p)
  {
    TableKnows(run, token, now, p);
    AcceptsWhatIsLive(After(run, p), token, Uses(run, token, p), now, p);
  }

  /** No login of the run issues the token. */
  predicate NotIssued(run: seq<Op>, token: string) {
    forall op | op in run :: !(op.Create? && op.token == token)
  }

  lemma {:induction false} RefusedForGood(
      run: seq<Op>, more: seq<Op>, token: string, refused: Time, now: Time, p: Policy)
    requires MonotoneUntil(run, refused) && MonotoneUntil(run + [Get(token, refused)] + more, now)
    requires !Live(Uses(run, token, p), refused, p) && NotIssued(more, token) && refused <= now
    ensures var uses := Uses(run + [Get(token, refused)] + more, token, p); !Live(uses, now, p)
    decreases |more|
  {
    var base := run + [Get(token, refused)];
    if more == [] {
      assert base + more == base && Init(base) == run;
      if Uses(run, token, p) != [] {
        OverStaysOver(Uses(run, token, p), refused, now, p);
      }
    } else {
      var op, whole := Last(more), base + more;
      assert Init(whole) == base + Init(more) && Last(whole) == op;
      assert op in more && forall x | x in Init(more) :: x in more;
      if op.Delete? {
        RefusedForGood(run, Init(more), token, refused, now, p);
      } else {
        StillLater(base, Init(more), refused, op.now);
        RefusedForGood(run, Init(more), token, refused, op.now, p);
        var uses := Uses(Init(whole), token, p);
        if uses != [] {
          OverStaysOver(uses, op.now, now, p);
        }
      }
    }
  }

  lemma {:induction false} StillLater(base: seq<Op>, more: seq<Op>, refused: Time, now: Time)
    requires base != [] && Last(base).Get? && Last(base).now == refused && MonotoneUntil(base + more, now)
    ensures refused <= now
  {
    if more == [] {
      assert base + more == base;
    } else {
      assert Init(base + more) == base + Init(more);
      StillLater(base, Init(more), refused, if Last(more).Delete? then now else Last(more).now);
    }
  }

  /** No session revives: a token once refused is refused ever after, unless it is issued again. */
  lemma {:induction false} NoSessionRevives(
      run: seq<Op>, more: seq<Op>, token: string, refused: Time, now: Time, p: Policy)
    requires MonotoneUntil(run, refused) && MonotoneUntil(run + [Get(token, refused)] + more, now)
    requires !Accepts(After(run, p), token, refused, p) && NotIssued(more, token)
    ensures !Accepts(After(run + [Get(token, refused)] + more, p), token, now, p)
  {
    AnswersFollowTheHistory(run, token, refused, p);
    StillLater(run + [Get(token, refused)], more, refused, now);
    RefusedForGood(run, more, token, refused, now, p);
    AnswersFollowTheHistory(run + [Get(token, refused)] + more, token, now, p);
  }
}
