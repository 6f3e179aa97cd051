/**
 The fixed-window attempt limiter (internal/auth/limiter.go). A key's window opens at its first counted
 attempt and lasts `window`; expired windows are forgotten now and then, and a full table refuses new keys.
 */
module Limiters {
  import opened Prelude

  datatype Attempt = Attempt(count: nat, since: Time)

  datatype Limits = Limits(limit: nat, window: Time, maxKeys: nat)

  datatype Table = Table(items: map<string, Attempt>, lastCleanup: Time)

  predicate Expired(a: Attempt, now: Time, window: Time) {
    now - a.since >= window
  }

  function Kept(items: map<string, Attempt>, now: Time, window: Time): map<string, Attempt> {
    map k | k in items && !Expired(items[k], now, window) :: items[k]
  }

  function Cleaned(t: Table, now: Time, window: Time): Table {
    if now - t.lastCleanup >= window then Table(Kept(t.items, now, window), now) else t
  }

  /** The key's attempt after one more call: its window goes on, or a new one opens. */
  function Counted(items: map<string, Attempt>, key: string, now: Time, window: Time): Attempt {
    if key in items && !Expired(items[key], now, window) then Attempt(items[key].count + 1, items[key].since)
    else Attempt(1, now)
  }

  /** A call finds no room for its key. */
  predicate Refused(t: Table, key: string, now: Time, l: Limits) {
    var items := Cleaned(t, now, l.window).items;
    key !in items && |items| >= l.maxKeys
  }

  function Called(t: Table, key: string, now: Time, l: Limits): Table {
    var cleaned := Cleaned(t, now, l.window);
    if Refused(t, key, now, l) then cleaned
    else cleaned.(items := cleaned.items[key := Counted(cleaned.items, key, now, l.window)])
  }

  predicate Allowed(t: Table, key: string, now: Time, l: Limits) {
    !Refused(t, key, now, l) && Called(t, key, now, l).items[key].count <= l.limit
  }

  class Limiter {
    const limits: Limits
    var items: map<string, Attempt>
    var lastCleanup: Time

    constructor (limit: nat, window: Time, now: Time)
      ensures limits == Limits(limit, window, 10000)
      ensures View() == Table(map[], now)
    {
      limits, items, lastCleanup := Limits(limit, window, 10000), map[], now;
    }

    function View(): Table
      reads this
    {
      Table(items, lastCleanup)
    }

    method Allow(key: string, now: Time) returns (allowed: bool)
      modifies this
      ensures View() == Called(old(View()), key, now, limits)
      ensures allowed == Allowed(old(View()), key, now, limits)
    {
      if now - lastCleanup >= limits.window {
        Cleanup(now);
        lastCleanup := now;
      }
      assert View() == Cleaned(old(View()), now, limits.window);
      var known := key in items;
      if !known && |items| >= limits.maxKeys {
        return false;
      }
      var item := if known then items[key] else Attempt(0, now);
      if !known || now - item.since >= limits.window {
        item := Attempt(0, now);
      }
      item := item.(count := item.count + 1);
      items := items[key := item];
      allowed := item.count <= limits.limit;
    }

    /** Delete the expired entries one by one. */
    method Cleanup(now: Time)
      modifies this`items
      ensures items == Kept(old(items), now, limits.window)
    {
      var keys := items.Keys;
      while keys != {}
        invariant keys <= items.Keys
        invariant items == map k | k in old(items) && (k in keys || !Expired(old(items)[k], now, limits.window)) ::
                             old(items)[k]
        decreases |keys|
      {
        var k :| k in keys;
        keys := keys - {k};
        if now - items[k].since >= limits.window {
          items := items - {k};
        }
      }
    }

    method Reset(key: string)
      modifies this`items
      ensures items == old(items) - {key}
    {
      items := items - {key};
    }
  }

  // ----- runs -----

  datatype Op = Allow(key: string, now: Time) | Reset(key: string)

  function Next(t: Table, op: Op, l: Limits): Table {
    match op
    case Allow(key, now) => Called(t, key, now, l)
    case Reset(key) => t.(items := t.items - {key})
  }

  /** A fresh limiter after a run. */
  function After(run: seq<Op>, start: Time, l: Limits): Table {
    if run == [] then Table(map[], start) else Next(After(Init(run), start, l), Last(run), l)
  }

  predicate Monotone(run: seq<Op>) {
    forall i, j | 0 <= i < j < |run| && run[i].Allow? && run[j].Allow? :: run[i].now <= run[j].now
  }

  /** The table never holds more than maxKeys keys, whatever the clock does. */
  lemma {:induction false} TableIsBounded(run: seq<Op>, start: Time, l: Limits)
    ensures |After(run, start, l).items| <= l.maxKeys
  {
    if run != [] {
      TableIsBounded(Init(run), start, l);
      var t := After(Init(run), start, l);
      match Last(run)
      case Reset(key) => FewerKeys(t.items - {key}, t.items);
      case Allow(key, now) => FewerKeys(Kept(t.items, now, l.window), t.items);
    }
  }

  // ----- the history specification -----

  /** The key's counted attempts since its last reset: every call but those that found the table full. */
  function Attempts(run: seq<Op>, key: string, start: Time, l: Limits): seq<Time> {
    if run == [] then []
    else
      var earlier := Attempts(Init(run), key, start, l);
      match Last(run)
      case Reset(k) => if k == key then [] else earlier
      case Allow(k, now) =>
        if k == key && !Refused(After(Init(run), start, l), k, now, l) then earlier + [now] else earlier
  }

  /** Cut attempts into consecutive windows, each opened by its first attempt: the last window. */
  function LastWindow(attempts: seq<Time>, window: Time): (w: seq<Time>)
    ensures |w| <= |attempts|
    ensures attempts != [] ==> w != []
  {
    if attempts == [] then []
    else
      var open := LastWindow(Init(attempts), window);
      if open == [] || Last(attempts) - open[0] >= window then [Last(attempts)] else open + [Last(attempts)]
  }

  /** The table knows the key's last window, or has forgotten one that is over. */
  ghost predicate Knows(t: Table, key: string, attempts: seq<Time>, clock: Option<Time>, window: Time) {
    var open := LastWindow(attempts, window);
    if key in t.items then open != [] && t.items[key] == Attempt(|open|, open[0])
    else open == [] || (clock.Some? && clock.value - open[0] >= window)
  }

  /** The latest call. */
  function Clock(run: seq<Op>): Option<Time> {
    if run == [] then None else if Last(run).Allow? then Some(Last(run).now) else Clock(Init(run))
  }

  lemma {:induction false} ClockIsLatest(run: seq<Op>, now: Time, key: string)
    requires Monotone(run + [Allow(key, now)])
    ensures Monotone(run)
    ensures Clock(run).Some? ==> Clock(run).value <= now
  {
    var more := run + [Allow(key, now)];
    forall i, j | 0 <= i < j < |run| && run[i].Allow? && run[j].Allow? ensures run[i].now <= run[j].now {
      assert more[i] == run[i] && more[j] == run[j];
    }
    if run != [] {
      if Last(run).Allow? {
        assert more[|run| - 1] == Last(run) && more[|run|] == Allow(key, now);
      } else {
        var shorter := Init(run) + [Allow(key, now)];
        forall i, j | 0 <= i < j < |shorter| && shorter[i].Allow? && shorter[j].Allow?
          ensures shorter[i].now <= shorter[j].now
        {
          assert shorter[i] == more[i] && shorter[j] == if j < |run| - 1 then more[j] else more[|run|];
        }
        ClockIsLatest(Init(run), now, key);
      }
    }
  }

  lemma CallKeepsKnowledge(t: Table, key: string, now: Time, l: Limits, other: string, attempts: seq<Time>,
                           clock: Option<Time>)
    requires Knows(t, other, attempts, clock, l.window) && (clock.Some? ==> clock.value <= now)
    ensures var counted := other == key && !Refused(t, key, now, l);
            Knows(Called(t, key, now, l), other, if counted then attempts + [now] else attempts, Some(now), l.window)
  {
    assert Init(attempts + [now]) == attempts;
  }

  lemma {:induction false} TableKnows(run: seq<Op>, start: Time, l: Limits, key: string)
    requires Monotone(run)
    ensures Knows(After(run, start, l), key, Attempts(run, key, start, l), Clock(run), l.window)
  {
    if run != [] {
      TableKnows(Init(run), start, l, key);
      if Last(run).Allow? {
        assert run == Init(run) + [Allow(Last(run).key, Last(run).now)];
        ClockIsLatest(Init(run), Last(run).now, Last(run).key);
        CallKeepsKnowledge(After(Init(run), start, l), Last(run).key, Last(run).now, l,
                           key, Attempts(Init(run), key, start, l), Clock(Init(run)));
      }
    }
  }

  /**
   Cleanup is invisible: a call that finds room is allowed exactly when the window it falls in, counted
   over the key's whole history, has at most `limit` attempts.
   */
  lemma {:induction false} AnswersFollowTheHistory(run: seq<Op>, start: Time, l: Limits, key: string, now: Time)
    requires Monotone(run + [Allow(key, now)])
    ensures var t := After(run, start, l);
            Allowed(t, key, now, l) <==>
              !Refused(t, key, now, l)
              && |LastWindow(Attempts(run, key, start, l) + [now], l.window)| <= l.limit
  {
    ClockIsLatest(run, now, key);
    TableKnows(run, start, l, key);
    CallKeepsKnowledge(After(run, start, l), key, now, l, key, Attempts(run, key, start, l), Clock(run));
  }

  function KeysOf(run: seq<Op>): set<string> {
    set op | op in run :: op.key
  }

  lemma StepAddsItsKey(t: Table, op: Op, l: Limits)
    ensures Next(t, op, l).items.Keys <= t.items.Keys + {op.key}
  {
  }

  lemma {:induction false} OnlySeenKeys(run: seq<Op>, start: Time, l: Limits)
    ensures After(run, start, l).items.Keys <= KeysOf(run)
  {
    if run != [] {
      OnlySeenKeys(Init(run), start, l);
      StepAddsItsKey(After(Init(run), start, l), Last(run), l);
      assert KeysOf(Init(run)) + {Last(run).key} <= KeysOf(run) by {
        assert Last(run) in run && forall op | op in Init(run) :: op in run;
      }
    }
  }

  /** While no more than maxKeys keys are in play, no call is ever refused for want of room. */
  lemma {:induction false} FewKeysAreNeverRefused(run: seq<Op>, start: Time, l: Limits, key: string, now: Time)
    requires |KeysOf(run) + {key}| <= l.maxKeys
    ensures !Refused(After(run, start, l), key, now, l)
  {
    OnlySeenKeys(run, start, l);
    var items := Cleaned(After(run, start, l), now, l.window).items;
    if key !in items {
      SubsetSize(items.Keys + {key}, KeysOf(run) + {key});
      assert |items.Keys + {key}| == |items| + 1;
    }
  }

  // ----- how many calls a span allows -----

  /** The calls of `key` that a run, starting from a table, allows. */
  function AllowedCalls(t: Table, span: seq<Op>, l: Limits, key: string): nat {
    if span == [] then 0
    else
      var before := Over(t, Init(span), l);
      AllowedCalls(t, Init(span), l, key)
      + if Last(span).Allow? && Last(span).key == key && Allowed(before, key, Last(span).now, l) then 1 else 0
  }

  function Over(t: Table, span: seq<Op>, l: Limits): Table {
    if span == [] then t else Next(Over(t, Init(span), l), Last(span), l)
  }

  /** A span of calls from `from` on, shorter than the window, that does not reset the key. */
  predicate Short(span: seq<Op>, from: Time, window: Time, key: string) {
    forall op | op in span ::
      match op
      case Allow(_, now) => from <= now < from + window
      case Reset(k) => k != key
  }

  /**
   Within a short span a key goes through at most two windows. One opened in the span cannot end there,
   so the other was opened before the span, by a call the span does not contain.
   */
  ghost predicate TwoWindows(t: Table, key: string, from: Time, limit: nat, allowed: nat) {
    if key in t.items && t.items[key].since >= from then
      allowed <= 2 * limit - 1 && allowed <= limit - 1 + t.items[key].count
    else
      allowed <= limit - 1 && (key in t.items ==> allowed <= t.items[key].count - 1)
  }

  predicate Positive(t: Table) {
    forall k | k in t.items :: t.items[k].count >= 1
  }

  lemma {:induction false} CountsArePositive(run: seq<Op>, start: Time, l: Limits)
    ensures Positive(After(run, start, l))
  {
    if run != [] {
      CountsArePositive(Init(run), start, l);
    }
  }

  lemma StepKeepsTwoWindows(t: Table, op: Op, l: Limits, key: string, from: Time, allowed: nat)
    requires TwoWindows(t, key, from, l.limit, allowed) && l.limit >= 1
    requires op.Allow? ==> from <= op.now < from + l.window
    requires op.Reset? ==> op.key != key
    ensures TwoWindows(Next(t, op, l), key, from, l.limit,
                       allowed + if op.Allow? && op.key == key && Allowed(t, key, op.now, l) then 1 else 0)
  {
  }

  lemma {:induction false} SpanSeesTwoWindows(t: Table, span: seq<Op>, l: Limits, key: string, from: Time)
    requires Short(span, from, l.window, key) && l.limit >= 1 && Positive(t)
    ensures TwoWindows(Over(t, span, l), key, from, l.limit, AllowedCalls(t, span, l, key))
  {
    if span != [] {
      assert Last(span) in span && forall op | op in Init(span) :: op in span;
      SpanSeesTwoWindows(t, Init(span), l, key, from);
      StepKeepsTwoWindows(Over(t, Init(span), l), Last(span), l, key, from, AllowedCalls(t, Init(span), l, key));
    }
  }

  lemma {:induction false} NoLimitNoCalls(t: Table, span: seq<Op>, l: Limits, key: string)
    requires l.limit == 0
    ensures AllowedCalls(t, span, l, key) == 0
  {
    if span != [] {
      NoLimitNoCalls(t, Init(span), l, key);
    }
  }

  /**
   The window bound: in any run, any stretch of calls that spans less than the window and does not
   reset the key allows it fewer than twice the limit.
   */
  lemma {:induction false} FewerThanTwiceTheLimit(
      run: seq<Op>, span: seq<Op>, start: Time, l: Limits, key: string, from: Time)
    requires Short(span, from, l.window, key)
    ensures After(run + span, start, l) == Over(After(run, start, l), span, l)
    ensures l.limit >= 1 ==> AllowedCalls(After(run, start, l), span, l, key) <= 2 * l.limit - 1
    ensures l.limit == 0 ==> AllowedCalls(After(run, start, l), span, l, key) == 0
  {
    AfterConcat(run, span, start, l);
    if l.limit == 0 {
      NoLimitNoCalls(After(run, start, l), span, l, key);
    } else {
      CountsArePositive(run, start, l);
      SpanSeesTwoWindows(After(run, start, l), span, l, key, from);
    }
  }

  lemma {:induction false} AfterConcat(run: seq<Op>, span: seq<Op>, start: Time, l: Limits)
    ensures After(run + span, start, l) == Over(After(run, start, l), span, l)
  {
    if span == [] {
      assert run + span == run;
    } else {
      assert Init(run + span) == run + Init(span);
      AfterConcat(run, Init(span), start, l);
    }
  }

  function Repeat(op: Op, n: nat): seq<Op> {
    if n == 0 then [] else Repeat(op, n - 1) + [op]
  }

  lemma {:induction false} RepeatsOnly(op: Op, n: nat)
    ensures forall x | x in Repeat(op, n) :: x == op
  {
    if n > 0 {
      RepeatsOnly(op, n - 1);
    }
  }

  lemma OneMoreCall(t: Table, key: string, now: Time, l: Limits)
    requires key in t.items && !Expired(t.items[key], now, l.window)
    ensures var after := Called(t, key, now, l);
            key in after.items && after.items[key] == Attempt(t.items[key].count + 1, t.items[key].since)
    ensures Allowed(t, key, now, l) <==> t.items[key].count + 1 <= l.limit
  {
  }

  /** Calls within an open window: each counts, and those up to the limit are allowed. */
  lemma {:induction false} RepeatedCalls(t: Table, key: string, now: Time, n: nat, l: Limits)
    requires key in t.items && !Expired(t.items[key], now, l.window)
    ensures var after := Over(t, Repeat(Allow(key, now), n), l);
            key in after.items && after.items[key] == Attempt(t.items[key].count + n, t.items[key].since)
    ensures t.items[key].count + n <= l.limit ==> AllowedCalls(t, Repeat(Allow(key, now), n), l, key) == n
  {
    if n > 0 {
      RepeatedCalls(t, key, now, n - 1, l);
      var calls, earlier := Repeat(Allow(key, now), n), Repeat(Allow(key, now), n - 1);
      assert Init(calls) == earlier && Last(calls) == Allow(key, now);
      OneMoreCall(Over(t, earlier, l), key, now, l);
    }
  }

  lemma {:induction false} AllowedConcat(t: Table, a: seq<Op>, b: seq<Op>, l: Limits, key: string)
    ensures AllowedCalls(t, a + b, l, key) == AllowedCalls(t, a, l, key) + AllowedCalls(Over(t, a, l), b, l, key)
    ensures Over(t, a + b, l) == Over(Over(t, a, l), b, l)
  {
    if b == [] {
      assert a + b == a;
    } else {
      assert Init(a + b) == a + Init(b);
      AllowedConcat(t, a, Init(b), l, key);
    }
  }

  lemma FirstCall(key: string, now: Time, l: Limits)
    requires l.window >= 1 && l.maxKeys >= 1
    ensures After([Allow(key, now)], now, l) == Table(map[key := Attempt(1, now)], now)
  {
    var run, empty := [Allow(key, now)], Table(map[], now);
    assert Init(run) == [];
    assert After(run, now, l) == Called(empty, key, now, l);
    assert Cleaned(empty, now, l.window) == empty;
    assert empty.items == map[];
  }

  /** A new window opens where the old one ends, whether or not the cleanup has forgotten it. */
  lemma WindowReopens(t: Table, key: string, now: Time, l: Limits)
    requires key in t.items && Expired(t.items[key], now, l.window) && !Refused(t, key, now, l) && l.limit >= 1
    ensures var after := Over(t, [Allow(key, now)], l); key in after.items && after.items[key] == Attempt(1, now)
    ensures AllowedCalls(t, [Allow(key, now)], l, key) == 1
  {
    assert Init([Allow(key, now)]) == [];
  }

  /** A key that calls alone: it opens a window, and fills it at its end. */
  lemma WindowFills(key: string, start: Time, end: Time, n: nat, l: Limits)
    requires l.window >= 1 && l.maxKeys >= 1 && l.limit == n + 1 && end == start + l.window - 1
    ensures var t, ending := After([Allow(key, start)], start, l), Repeat(Allow(key, end), n);
            var full := Over(t, ending, l);
            && key in full.items && full.items[key] == Attempt(n + 1, start)
            && AllowedCalls(t, ending, l, key) == n
            && !Refused(full, key, end + 1, l)
  {
    var first, ending := [Allow(key, start)], Repeat(Allow(key, end), n);
    FirstCall(key, start, l);
    var t := After(first, start, l);
    RepeatedCalls(t, key, end, n, l);
    AfterConcat(first, ending, start, l);
    RepeatsOnly(Allow(key, end), n);
    assert KeysOf(first + ending) + {key} == {key};
    FewKeysAreNeverRefused(first + ending, start, l, key, end + 1);
  }

  /** The calls that reach the bound: the rest of one window at its end, and the next window at once. */
  function Burst(key: string, end: Time, n: nat): seq<Op> {
    Repeat(Allow(key, end), n) + ([Allow(key, end + 1)] + Repeat(Allow(key, end + 1), n))
  }

  lemma BurstIsShort(key: string, end: Time, n: nat, window: Time)
    requires window >= 2
    ensures Short(Burst(key, end, n), end, window, key)
  {
    RepeatsOnly(Allow(key, end), n);
    RepeatsOnly(Allow(key, end + 1), n);
    forall op | op in Burst(key, end, n) ensures op == Allow(key, end) || op == Allow(key, end + 1) {
    }
  }

  /** The bound is exact: the burst spans one nanosecond and is allowed throughout. */
  lemma BoundIsReached(key: string, start: Time, end: Time, n: nat, l: Limits)
    requires l.window >= 2 && l.maxKeys >= 1 && l.limit == n + 1 && end == start + l.window - 1
    ensures Short(Burst(key, end, n), end, l.window, key)
    ensures AllowedCalls(After([Allow(key, start)], start, l), Burst(key, end, n), l, key) == 2 * l.limit - 1
  {
    BurstIsShort(key, end, n, l.window);
    var t := After([Allow(key, start)], start, l);
    var ending, rest := Repeat(Allow(key, end), n), Repeat(Allow(key, end + 1), n);
    WindowFills(key, start, end, n, l);
    NextWindowFills(Over(t, ending, l), key, end + 1, n, l);
    AllowedConcat(t, ending, [Allow(key, end + 1)] + rest, l, key);
  }

  lemma NextWindowFills(t: Table, key: string, now: Time, n: nat, l: Limits)
    requires key in t.items && Expired(t.items[key], now, l.window) && !Refused(t, key, now, l)
    requires l.limit == n + 1 && l.window >= 1
    ensures AllowedCalls(t, [Allow(key, now)] + Repeat(Allow(key, now), n), l, key) == n + 1
  {
    WindowReopens(t, key, now, l);
    RepeatedCalls(Over(t, [Allow(key, now)], l), key, now, n, l);
    AllowedConcat(t, [Allow(key, now)], Repeat(Allow(key, now), n), l, key);
  }

  // ----- what is forgotten -----

  /** Every window the table holds opened less than two windows before the latest call, or before the start. */
  ghost predicate Recent(t: Table, clock: Option<Time>, window: Time) {
    && (clock.Some? ==> t.lastCleanup <= clock.value && clock.value - t.lastCleanup < window)
    && (clock.None? ==> t.items == map[])
    && forall k | k in t.items :: t.lastCleanup - t.items[k].since < window && t.items[k].since <= clock.value
  }

  lemma CallKeepsRecent(t: Table, key: string, now: Time, l: Limits, clock: Option<Time>)
    requires Recent(t, clock, l.window) && l.window > 0 && t.lastCleanup <= now && (clock.Some? ==> clock.value <= now)
    ensures Recent(Called(t, key, now, l), Some(now), l.window)
  {
  }

  lemma {:induction false} TableIsRecent(run: seq<Op>, start: Time, l: Limits)
    requires Monotone(run) && l.window > 0 && forall i | 0 <= i < |run| && run[i].Allow? :: start <= run[i].now
    ensures Recent(After(run, start, l), Clock(run), l.window)
    ensures Clock(run) == None ==> After(run, start, l).lastCleanup == start
  {
    if run != [] {
      TableIsRecent(Init(run), start, l);
      if Last(run).Allow? {
        assert run == Init(run) + [Allow(Last(run).key, Last(run).now)];
        ClockIsLatest(Init(run), Last(run).now, Last(run).key);
        CallKeepsRecent(After(Init(run), start, l), Last(run).key, Last(run).now, l, Clock(Init(run)));
      }
    }
  }

  /** A clock that does not go back: no key stays in the table for two windows after its window opened. */
  lemma {:induction false} KeysAreForgotten(run: seq<Op>, start: Time, l: Limits, key: string, now: Time)
    requires Monotone(run + [Allow(key, now)]) && l.window > 0
    requires forall op | op in run + [Allow(key, now)] && op.Allow? :: start <= op.now
    ensures var t := After(run + [Allow(key, now)], start, l);
            forall k | k in t.items :: 0 <= now - t.items[k].since < 2 * l.window
  {
    var more := run + [Allow(key, now)];
    assert forall i | 0 <= i < |more| :: more[i] in more;
    assert Last(more) == Allow(key, now);
    TableIsRecent(more, start, l);
  }
}
