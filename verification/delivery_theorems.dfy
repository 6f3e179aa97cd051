/**
 What the delivery protocol promises, for every run: any interleaving of collector, sender, server
 and crashes in which the spool capacity is never raised between starts.
 */
module DeliveryTheorems {
  import opened Prelude
  import Spools
  import Senders
  import opened Delivery
  import opened DeliverySafety

  // ----- safety -----

  /** A 409 for the report in hand means that very report is already stored: nothing newer was ever sent. */
  lemma {:induction false} ConflictMeansStored(maximum: nat, run: seq<Event>)
    requires Reach(maximum, run).Some?
    requires var w := Reach(maximum, run).value;
             w.phase.Awaiting? && (w.phase.attempt, 409) in w.replies
    ensures var w := Reach(maximum, run).value;
            w.phase.s in w.accepted && forall a | 0 <= a < |w.requests| :: w.requests[a] <= w.phase.s
  {
    ReachableFits(maximum, run);
  }

  /** End-to-end conservation. */
  lemma {:induction false} EveryReportIsAccountedFor(maximum: nat, run: seq<Event>, n: nat)
    requires Reach(maximum, run).Some? && n in Reach(maximum, run).value.enqueued
    ensures var w := Reach(maximum, run).value;
            n in w.files || n in w.evicted || n in w.accepted || n in w.refused
  {
    ReachableFits(maximum, run);
  }

  /** The server stores each report at most once, in increasing order, and only reports that were enqueued. */
  lemma {:induction false} AcceptancesIncrease(maximum: nat, run: seq<Event>, i: nat, j: nat)
    requires Reach(maximum, run).Some? && i < j < |Reach(maximum, run).value.accepted|
    ensures var w := Reach(maximum, run).value;
            w.accepted[i] < w.accepted[j] && w.accepted[i] in w.enqueued
  {
    ReachableFits(maximum, run);
    var w := Reach(maximum, run).value;
    assert w.accepted[i] in w.accepted;
  }

  /** While the agent runs, the spool is a suffix of the enqueue order, whatever crashes revived or undid. */
  lemma {:induction false} SpoolIsASuffix(maximum: nat, run: seq<Event>, x: nat, y: nat)
    requires Reach(maximum, run).Some? && Running(Reach(maximum, run).value)
    requires x in Reach(maximum, run).value.files && y in Reach(maximum, run).value.enqueued && x < y
    ensures y in Reach(maximum, run).value.files
    ensures x in Reach(maximum, run).value.enqueued
            || Reach(maximum, run).value.lock == Committed(x)
  {
    ReachableFits(maximum, run);
  }

  lemma OnlySendAddsRequests(w: World, e: Event)
    requires Enabled(w, e)
    ensures Next(w, e).requests == if e.Send? then w.requests + [w.phase.s] else w.requests
  {
  }

  lemma StepAddsNewestRequest(w: World, e: Event)
    requires SenderFits(w) && Enabled(w, e)
    ensures var sent := Next(w, e).requests;
            sent == w.requests || (sent != [] && Init(sent) == w.requests && forall n | n in sent :: n <= Last(sent))
  {
    OnlySendAddsRequests(w, e);
    if e.Send? {
      assert Init(w.requests + [w.phase.s]) == w.requests;
    }
  }

  /** Attempts leave in nondecreasing order of report, even across restarts. */
  lemma {:induction false} AttemptsInOrder(maximum: nat, run: seq<Event>)
    requires Reach(maximum, run).Some?
    ensures var sent := Reach(maximum, run).value.requests;
            forall i, j | 0 <= i < j < |sent| :: sent[i] <= sent[j]
  {
    if run != [] {
      AttemptsInOrder(maximum, Init(run));
      ReachableFits(maximum, Init(run));
      StepAddsNewestRequest(Reach(maximum, Init(run)).value, Last(run));
      var before, sent := Reach(maximum, Init(run)).value.requests, Reach(maximum, run).value.requests;
      assert forall i | 0 <= i < |sent| - 1 && sent != before :: sent[i] == before[i];
    }
  }

  // ----- one whole Enqueue is the method of the spool -----

  function Steps(w: World, run: seq<Event>): Option<World>
    decreases run
  {
    if run == [] then Some(w)
    else if Enabled(w, run[0]) then Steps(Next(w, run[0]), run[1..])
    else None
  }

  lemma {:induction false} TrimTakesSteps(w: World) returns (run: seq<Event>)
    requires w.lock == Trimming || w.lock == Starting
    ensures var kept := Spools.Newest(w.files, w.maximum);
            Steps(w, run) ==
            Some(w.(files := kept, synced := kept, lock := Free, evicted := w.evicted + (w.files - kept)))
    decreases |w.files|
  {
    if |w.files| <= w.maximum {
      run := [TrimDone];
      assert w.evicted + (w.files - w.files) == w.evicted;
      assert Steps(Next(w, TrimDone), []).Some? && [TrimDone][1..] == [];
    } else {
      var v := Next(w, Evict);
      var rest := TrimTakesSteps(v);
      run := [Evict] + rest;
      assert run[1..] == rest;
      var kept := Spools.Newest(w.files, w.maximum);
      Spools.NewestKeepsTheLargest(v.files, w.maximum);
      assert v.evicted + (v.files - kept) == w.evicted + (w.files - kept);
    }
  }

  /** Commit, sync and trim, taken together, do to the directory what Spool.Enqueue promises. */
  lemma {:induction false} EnqueueTakesSteps(w: World) returns (run: seq<Event>)
    requires w.lock == Free && w.held.Some?
    ensures var added := w.files + {w.held.value};
            var kept := Spools.Newest(added, w.maximum);
            Steps(w, run) ==
            Some(w.(files := kept, synced := kept, held := None, wake := true,
                    enqueued := w.enqueued + {w.held.value}, evicted := w.evicted + (added - kept)))
  {
    var committed := Next(w, Commit);
    var trimming := Next(committed, SyncCommit);
    var rest := TrimTakesSteps(trimming);
    run := [Commit, SyncCommit] + rest;
    assert run[1..] == [SyncCommit] + rest && run[1..][1..] == rest;
    assert Steps(committed, run[1..]) == Steps(trimming, rest);
  }

  // ----- liveness of the sender loop -----

  /** Whenever the sender waits, or is about to, on a spool that is not empty, the wake channel holds a token. */
  lemma {:induction false} NoLostWakeUp(maximum: nat, run: seq<Event>)
    requires Reach(maximum, run).Some?
    requires var w := Reach(maximum, run).value; Running(w) && w.phase == Waiting && w.files != {}
    ensures Enabled(Reach(maximum, run).value, WakeUp)
  {
    ReachableFits(maximum, run);
  }

  /** An enqueue committed since the agent last started, and the sender has not taken its wake-up yet. */
  predicate TokenOwed(run: seq<Event>) {
    run != [] && (Last(run).Commit? || (TokenOwed(Init(run)) && !Last(run).WakeUp? && !Last(run).Crash?))
  }

  /** The one-slot channel: there is a token exactly when one is owed. */
  lemma {:induction false} TokenIffCommitSince(maximum: nat, run: seq<Event>)
    requires Reach(maximum, run).Some?
    ensures Reach(maximum, run).value.wake <==> TokenOwed(run)
  {
    if run != [] {
      TokenIffCommitSince(maximum, Init(run));
      OnlyThreeStepsMoveTheToken(Reach(maximum, Init(run)).value, Last(run));
    }
  }

  lemma OnlyThreeStepsMoveTheToken(w: World, e: Event)
    requires Enabled(w, e)
    ensures Next(w, e).wake == (e.Commit? || (w.wake && !e.WakeUp? && !e.Crash?))
  {
  }

  predicate SenderStep(e: Event) {
    e.Look? || e.WakeUp? || e.Send? || e.Receive? || e.Lose? || e.Remove? || e.RemoveFails? || e.SyncRemove?
  }

  /** The extra work of a failure: the attempt is repeated, or the report whose removal failed is sent again. */
  function Setback(e: Event): nat {
    if e.Lose? || (e.Receive? && Senders.Retryable(Senders.Status(e.status))) then 2
    else if e.RemoveFails? then 4 else 0
  }

  /** Unless an Enqueue holds the spool, the sender can move until the spool is empty. */
  lemma {:induction false} SenderCanMove(maximum: nat, run: seq<Event>) returns (e: Event)
    requires Reach(maximum, run).Some?
    requires var w := Reach(maximum, run).value;
             (w.lock == Free || w.lock == Removing) && (w.files != {} || w.phase != Waiting)
    ensures SenderStep(e) && Enabled(Reach(maximum, run).value, e)
  {
    ReachableFits(maximum, run);
    var w := Reach(maximum, run).value;
    e := if w.lock == Removing then SyncRemove
         else match w.phase
              case Looking => Look
              case Waiting => WakeUp
              case Holding(_) => Send
              case Awaiting(_, _) => Lose
              case Settled(_) => Remove;
  }

  /** The report the sender still has to acknowledge. */
  function InSendersHand(lock: Lock, phase: Phase): set<nat> {
    if lock == Removing || phase.Looking? || phase.Waiting? then {} else {phase.s}
  }

  /** What is still to be delivered. */
  function Outstanding(w: World): set<nat> {
    w.files + InSendersHand(w.lock, w.phase)
  }

  function Rank(lock: Lock, phase: Phase): nat {
    if lock == Removing then 5
    else match phase
         case Looking => 4
         case Holding(_) => 3
         case Awaiting(_, _) => 2
         case Settled(_) => 1
         case Waiting => 0
  }

  /** Sender steps left if no attempt fails again. */
  function Work(w: World): nat {
    5 * |Outstanding(w)| + (if w.wake then 5 else 0) + Rank(w.lock, w.phase)
  }

  /** With the same files and the same report in hand, only the wake-up and the phase count. */
  lemma SameOutstanding(w: World, v: World)
    requires v.files == w.files && InSendersHand(v.lock, v.phase) == InSendersHand(w.lock, w.phase)
    ensures Work(v) - Work(w) == (if v.wake then 5 else 0) + Rank(v.lock, v.phase)
                                 - (if w.wake then 5 else 0) - Rank(w.lock, w.phase)
  {
  }

  lemma WakeUpWorks(w: World)
    requires Enabled(w, WakeUp) && w.lock != Removing
    ensures Work(Next(w, WakeUp)) < Work(w)
  {
    SameOutstanding(w, Next(w, WakeUp));
  }

  lemma SendWorks(w: World)
    requires Enabled(w, Send) && w.lock != Removing
    ensures Work(Next(w, Send)) < Work(w)
  {
    SameOutstanding(w, Next(w, Send));
  }

  lemma ReceiveMoves(w: World, status: int)
    requires Enabled(w, Receive(status))
    ensures var v := Next(w, Receive(status));
            && v.files == w.files && v.lock == w.lock && v.wake == w.wake
            && v.phase == if Senders.Retryable(Senders.Status(status)) then Holding(w.phase.s) else Settled(w.phase.s)
  {
  }

  lemma ReceiveWorks(w: World, status: int)
    requires Enabled(w, Receive(status)) && w.lock != Removing
    ensures Work(Next(w, Receive(status))) < Work(w) + if Senders.Retryable(Senders.Status(status)) then 2 else 0
  {
    var v := Next(w, Receive(status));
    ReceiveMoves(w, status);
    assert InSendersHand(v.lock, v.phase) == InSendersHand(w.lock, w.phase);
    SameOutstanding(w, v);
  }

  lemma LoseWorks(w: World)
    requires Enabled(w, Lose) && w.lock != Removing
    ensures Work(Next(w, Lose)) < Work(w) + 2
  {
    SameOutstanding(w, Next(w, Lose));
  }

  lemma SyncRemoveWorks(w: World)
    requires Enabled(w, SyncRemove)
    ensures Work(Next(w, SyncRemove)) < Work(w)
  {
    SameOutstanding(w, Next(w, SyncRemove));
  }

  lemma LookWorks(w: World)
    requires Enabled(w, Look)
    ensures Work(Next(w, Look)) < Work(w)
  {
    assert Outstanding(Next(w, Look)) == Outstanding(w);
  }

  lemma OneFewer(files: set<nat>, s: nat)
    ensures |files + {s}| == |files - {s}| + 1
  {
    assert files + {s} == (files - {s}) + {s};
  }

  /** Acknowledging takes one report off what is outstanding, in the spool or already evicted. */
  lemma RemoveWorks(w: World)
    requires Enabled(w, Remove)
    ensures Work(Next(w, Remove)) < Work(w)
  {
    var v, s := Next(w, Remove), w.phase.s;
    OneFewer(w.files, s);
    assert Outstanding(w) == w.files + {s};
    assert Outstanding(v) == w.files - {s} by {
      assert InSendersHand(v.lock, v.phase) == {};
    }
    assert v.wake == w.wake && Rank(v.lock, v.phase) == 5 && Rank(w.lock, w.phase) == 1;
  }

  /** A failed removal leaves the file to be sent again, unless it had been evicted. */
  lemma RemoveFailsWorks(w: World)
    requires Enabled(w, RemoveFails)
    ensures Work(Next(w, RemoveFails)) < Work(w) + 4
  {
    var v, s := Next(w, RemoveFails), w.phase.s;
    assert Outstanding(v) == w.files && Outstanding(w) == w.files + {s};
    SubsetSize(w.files, w.files + {s});
  }

  lemma SenderStepWorks(w: World, e: Event)
    requires Inv(w) && Enabled(w, e) && SenderStep(e)
    ensures Work(Next(w, e)) < Work(w) + Setback(e)
  {
    match e
    case Look => LookWorks(w);
    case WakeUp => WakeUpWorks(w);
    case Send => SendWorks(w);
    case Receive(status) => ReceiveWorks(w, status);
    case Lose => LoseWorks(w);
    case Remove => RemoveWorks(w);
    case RemoveFails => RemoveFailsWorks(w);
    case SyncRemove => SyncRemoveWorks(w);
  }

  /** The setbacks, and the steps of the sender, in a run. */
  function Setbacks(run: seq<Event>): nat {
    if run == [] then 0 else Setbacks(Init(run)) + Setback(Last(run))
  }

  function SenderSteps(run: seq<Event>): nat {
    if run == [] then 0 else SenderSteps(Init(run)) + if SenderStep(Last(run)) then 1 else 0
  }

  lemma {:induction false} ReachConcat(maximum: nat, before: seq<Event>, after: seq<Event>)
    requires Reach(maximum, before + after).Some?
    ensures Reach(maximum, before).Some?
    ensures forall k | 0 <= k <= |after| :: Reach(maximum, before + after[..k]).Some?
    decreases |after|
  {
    if after == [] {
      assert before + after == before && before + after[..0] == before;
    } else {
      assert Init(before + after) == before + Init(after);
      ReachConcat(maximum, before, Init(after));
      forall k | 0 <= k <= |after| ensures Reach(maximum, before + after[..k]).Some? {
        if k == |after| {
          assert after[..k] == after;
        } else {
          assert after[..k] == Init(after)[..k];
        }
      }
    }
  }

  /**
   Once the collector is quiet, the sender takes at most as many further steps as there is work and
   setbacks add, however the server's work interleaves.
   */
  lemma {:induction false} SenderStepsAreBounded(maximum: nat, before: seq<Event>, after: seq<Event>)
    requires Reach(maximum, before + after).Some?
    requires forall e | e in after :: SenderStep(e) || e.Serve?
    ensures Reach(maximum, before).Some?
    ensures SenderSteps(after) + Work(Reach(maximum, before + after).value)
            <= Work(Reach(maximum, before).value) + Setbacks(after)
    decreases |after|
  {
    ReachConcat(maximum, before, after);
    if after == [] {
      assert before + after == before;
    } else {
      assert Init(before + after) == before + Init(after);
      assert Last(after) in after && forall e | e in Init(after) :: e in after;
      SenderStepsAreBounded(maximum, before, Init(after));
      ReachableFits(maximum, before + Init(after));
      var w := Reach(maximum, before + Init(after)).value;
      if SenderStep(Last(after)) {
        SenderStepWorks(w, Last(after));
      } else {
        ServingIsNotWork(w, Last(after).attempt, Last(after).verdict);
      }
    }
  }

  lemma ServingIsNotWork(w: World, attempt: nat, verdict: Verdict)
    requires Enabled(w, Serve(attempt, verdict))
    ensures Work(Next(w, Serve(attempt, verdict))) == Work(w)
  {
    var v := Next(w, Serve(attempt, verdict));
    assert v.files == w.files && v.lock == w.lock && v.phase == w.phase && v.wake == w.wake;
  }

  /** No Enqueue holds the spool, and the agent runs. */
  predicate CollectorQuiet(w: World) {
    w.lock == Free || w.lock == Removing
  }

  lemma {:induction false} StaysQuiet(maximum: nat, before: seq<Event>, after: seq<Event>)
    requires Reach(maximum, before + after).Some?
    requires forall e | e in after :: SenderStep(e) || e.Serve?
    ensures Reach(maximum, before).Some?
    ensures CollectorQuiet(Reach(maximum, before).value) ==> CollectorQuiet(Reach(maximum, before + after).value)
    decreases |after|
  {
    if after == [] {
      assert before + after == before;
    } else {
      OneStepBefore(maximum, before, after);
      assert Last(after) in after && forall e | e in Init(after) :: e in after;
      StaysQuiet(maximum, before, Init(after));
      if CollectorQuiet(Reach(maximum, before + Init(after)).value) {
        StepStaysQuiet(Reach(maximum, before + Init(after)).value, Last(after));
      }
    }
  }

  lemma {:induction false} OneStepBefore(maximum: nat, before: seq<Event>, after: seq<Event>)
    requires after != [] && Reach(maximum, before + after).Some?
    ensures var w := Reach(maximum, before + Init(after));
            && w.Some? && Permitted(w.value, Last(after))
            && Reach(maximum, before + after) == Some(Next(w.value, Last(after)))
  {
    assert Init(before + after) == before + Init(after);
  }

  lemma StepStaysQuiet(w: World, e: Event)
    requires Enabled(w, e) && (SenderStep(e) || e.Serve?) && CollectorQuiet(w)
    ensures CollectorQuiet(Next(w, e))
  {
  }

  /**
   Drain. Once the collector is quiet, a run of the sender and the server that no sender step can extend has
   emptied the spool, with nothing left in the sender's hand; and it took no more sender steps than there
   was work and setbacks added.
   */
  lemma {:induction false} SenderDrainsTheSpool(maximum: nat, before: seq<Event>, after: seq<Event>)
    requires Reach(maximum, before + after).Some?
    requires forall e | e in after :: SenderStep(e) || e.Serve?
    requires Reach(maximum, before).Some? ==> CollectorQuiet(Reach(maximum, before).value)
    requires forall e: Event | SenderStep(e) :: !Enabled(Reach(maximum, before + after).value, e)
    ensures var w := Reach(maximum, before + after).value;
            w.files == {} && Outstanding(w) == {} && w.phase == Waiting
    ensures Reach(maximum, before).Some?
    ensures SenderSteps(after) <= Work(Reach(maximum, before).value) + Setbacks(after)
  {
    StaysQuiet(maximum, before, after);
    SenderStepsAreBounded(maximum, before, after);
    var w := Reach(maximum, before + after).value;
    assert !Enabled(w, SyncRemove);
    if w.files != {} || w.phase != Waiting {
      var e := SenderCanMove(maximum, before + after);
      assert false;
    }
  }

  // ----- exactly when the capacity may change -----

  /** Runs from a new agent with capacity m: starts use m, and from some start on `next`. */
  ghost predicate Changes(run: seq<Event>, m: nat, next: nat) {
    run == [] ||
    (Changes(Init(run), m, next)
     && (Last(run).Start? && Last(run).maximum != next ==> Last(run).maximum == m && Constant(run, m)))
  }

  ghost predicate Constant(run: seq<Event>, m: nat) {
    forall e | e in run && e.Start? :: e.maximum == m
  }

  /** Where a run leads when nothing is asked of its capacities. */
  function Walk(m: nat, run: seq<Event>): Option<World> {
    if run == [] then Some(Begin(m))
    else
      var before := Walk(m, Init(run));
      if before.Some? && Enabled(before.value, Last(run)) then Some(Next(before.value, Last(run))) else None
  }

  ghost predicate Possible(w: World, m: nat, next: nat) {
    exists run :: Changes(run, m, next) && Walk(m, run) == Some(w)
  }

  lemma OnlyStartsSetTheCapacity(w: World, e: Event)
    requires Enabled(w, e)
    ensures Next(w, e).maximum == if e.Start? then e.maximum else w.maximum
  {
  }

  lemma {:induction false} LoweringIsPermitted(m: nat, next: nat, run: seq<Event>)
    requires next <= m && Changes(run, m, next) && Walk(m, run).Some?
    ensures Reach(m, run) == Walk(m, run)
    ensures next <= Walk(m, run).value.maximum
    ensures Constant(run, m) ==> Walk(m, run).value.maximum == m
  {
    if run != [] {
      LoweringIsPermitted(m, next, Init(run));
      OnlyStartsSetTheCapacity(Walk(m, Init(run)).value, Last(run));
      assert Last(run) in run && forall e | e in Init(run) :: e in run;
    }
  }

  lemma Extend(w: World, e: Event, m: nat, next: nat) returns (v: World)
    requires Possible(w, m, next) && Enabled(w, e) && !e.Start?
    ensures v == Next(w, e) && Possible(v, m, next)
  {
    var run :| Changes(run, m, next) && Walk(m, run) == Some(w);
    assert Init(run + [e]) == run;
    v := Next(w, e);
    assert Changes(run + [e], m, next) && Walk(m, run + [e]) == Some(v);
  }

  lemma Restart(w: World, m: nat, next: nat) returns (v: World)
    requires Possible(w, m, next) && w.lock == Down && next >= 1
    ensures v == w.(maximum := next, lock := Starting) && Possible(v, m, next)
  {
    var run :| Changes(run, m, next) && Walk(m, run) == Some(w);
    var e := Start(next);
    assert Init(run + [e]) == run;
    v := Next(w, e);
    assert Changes(run + [e], m, next) && Walk(m, run + [e]) == Some(v);
  }

  /** A new agent, started with its first capacity. */
  lemma Started(m: nat, next: nat) returns (w: World)
    requires m >= 1
    ensures w == Begin(m).(lock := Free) && Possible(w, m, next)
  {
    var run := [Start(m)];
    assert Init(run) == [] && Walk(m, []) == Some(Begin(m)) && Constant(run, m);
    w := Next(Begin(m), Start(m));
    assert Changes([], m, next) && Changes(run, m, next) && Walk(m, run) == Some(w);
    w := Extend(w, TrimDone, m, next);
  }

  // ----- a report lost to a raised capacity -----

  /** The numbers from a to b. */
  function Numbers(a: nat, b: nat): (numbers: set<nat>)
    ensures forall n :: n in numbers <==> a <= n <= b
  {
    if a > b then {} else if a == b then {b} else Numbers(a, b - 1) + {b}
  }

  lemma {:induction false} CountNumbers(a: nat, b: nat)
    ensures |Numbers(a, b)| == if a <= b then b - a + 1 else 0
    ensures a <= b ==> Spools.Oldest(Numbers(a, b)) == a
    decreases b
  {
    if a <= b {
      assert a in Numbers(a, b);
      if a < b {
        CountNumbers(a, b - 1);
      }
    }
  }

  lemma WithoutFirst(a: nat, b: nat)
    requires a <= b
    ensures |Numbers(a, b)| == b - a + 1 && Numbers(a, b) != {} && Spools.Oldest(Numbers(a, b)) == a
    ensures Numbers(a, b) - {a} == Numbers(a + 1, b)
  {
    CountNumbers(a, b);
    assert a in Numbers(a, b);
  }

  /** The reports 1 to k are in the spool, and nothing was sent. */
  function Filled(m: nat, k: nat): World {
    Begin(m).(lock := Free, files := Numbers(1, k), synced := Numbers(1, k), enqueued := Numbers(1, k),
              drawn := k, wake := k > 0)
  }

  /** A report enters the spool and is synced; trimming is about to begin. */
  lemma EnqueueReport(w: World, n: nat, m: nat, next: nat) returns (v: World)
    requires Possible(w, m, next) && w.lock == Free && w.held.None? && n > w.drawn
    ensures Possible(v, m, next)
    ensures var files := w.files + {n};
            v == w.(files := files, synced := files, lock := Trimming, drawn := n, wake := true,
                    enqueued := w.enqueued + {n})
  {
    v := Extend(w, Draw(n), m, next);
    v := Extend(v, Commit, m, next);
    v := Extend(v, SyncCommit, m, next);
  }

  /** The same once more, after the reports 1 to k. */
  lemma EnqueueUpToTrim(m: nat, next: nat, k: nat) returns (w: World)
    requires Possible(Filled(m, k), m, next)
    ensures w == Filled(m, k + 1).(lock := Trimming) && Possible(w, m, next)
  {
    var n := k + 1;
    w := EnqueueReport(Filled(m, k), n, m, next);
    assert Numbers(1, k) + {n} == Numbers(1, n);
  }

  /** Enqueueing again and again, with trims that fail to list the directory. */
  lemma {:induction false} FillUntrimmed(m: nat, next: nat, k: nat)
    requires m >= 1
    ensures Possible(Filled(m, k), m, next)
  {
    if k == 0 {
      var w := Started(m, next);
      assert Numbers(1, 0) == {} && w == Filled(m, 0);
    } else {
      FillUntrimmed(m, next, k - 1);
      var w := EnqueueUpToTrim(m, next, k - 1);
      w := Extend(w, TrimFails, m, next);
      assert w == Filled(m, k);
    }
  }

  /** One eviction, and the next removal fails. */
  lemma EvictThenFail(w: World, m: nat, next: nat) returns (v: World)
    requires Possible(w, m, next) && w.lock == Trimming && |w.files| > w.maximum + 1
    ensures var oldest := Spools.Oldest(w.files);
            v == w.(files := w.files - {oldest}, evicted := w.evicted + {oldest}, lock := Free)
    ensures Possible(v, m, next)
  {
    v := Extend(w, Evict, m, next);
    assert |v.files| == |w.files| - 1;
    v := Extend(v, TrimFails, m, next);
  }

  /** The directory lacks report 1, durably it is still there. */
  lemma EvictOneUnsynced(m: nat, next: nat) returns (w: World)
    requires m >= 1
    ensures Possible(w, m, next)
    ensures w == Filled(m, m + 2).(files := Numbers(2, m + 2), evicted := {1})
  {
    var k, first := m + 1, 1;
    FillUntrimmed(m, next, k);
    var full := EnqueueUpToTrim(m, next, k);
    WithoutFirst(first, k + 1);
    w := EvictThenFail(full, m, next);
    assert w.files == Numbers(2, m + 2) && w.evicted == {1};
  }

  /** The oldest report is sent and processed. */
  lemma SendOldest(w: World, m: nat, next: nat) returns (v: World)
    requires Possible(w, m, next) && w.lock == Free && w.phase == Looking && w.files != {}
    ensures Possible(v, m, next)
    ensures var s, a := Spools.Oldest(w.files), |w.requests|;
            v == (if s > w.last then w.(last := s, accepted := w.accepted + [s]) else w)
                 .(phase := Awaiting(s, a), requests := w.requests + [s],
                   replies := w.replies + {(a, if s > w.last then 202 else 409)})
  {
    var s, a := Spools.Oldest(w.files), |w.requests|;
    v := Extend(w, Look, m, next);
    v := Extend(v, Send, m, next);
    assert v == w.(phase := Awaiting(s, a), requests := w.requests + [s]) && v.requests[a] == s;
    ServeStores(v, a);
    v := Extend(v, Serve(a, Stored), m, next);
  }

  lemma ServeStores(w: World, attempt: nat)
    requires attempt < |w.requests|
    ensures var n := w.requests[attempt];
            Next(w, Serve(attempt, Stored)) ==
            (if n > w.last then w.(last := n, accepted := w.accepted + [n]) else w)
            .(replies := w.replies + {(attempt, if n > w.last then 202 else 409)})
  {
  }

  /** The oldest report is accepted, and its file removed; the directory is not synced yet. */
  lemma AcceptOldest(w: World, m: nat, next: nat) returns (v: World)
    requires Possible(w, m, next) && w.lock == Free && w.phase == Looking
    requires w.files != {} && Spools.Oldest(w.files) > w.last
    ensures Possible(v, m, next)
    ensures v.lock == Removing && v.synced == w.synced && v.files == w.files - {Spools.Oldest(w.files)}
    ensures v.last == Spools.Oldest(w.files) && v.accepted == w.accepted + [Spools.Oldest(w.files)]
    ensures v.enqueued == w.enqueued && v.evicted == w.evicted && v.refused == w.refused
  {
    v := SendOldest(w, m, next);
    v := Extend(v, Receive(202), m, next);
    v := Extend(v, Remove, m, next);
  }

  /** Report 2 is accepted and removed; then the machine crashes and brings report 1 back. */
  lemma ReviveOldest(m: nat, next: nat) returns (w: World)
    requires m >= 1
    ensures Possible(w, m, next)
    ensures w.lock == Down && w.phase == Looking && w.files == {1} + Numbers(3, m + 2)
    ensures w.last == 2 && w.accepted == [2] && 1 in w.enqueued && 1 !in w.evicted && w.refused == {}
  {
    var second, end := 2, m + 2;
    w := EvictOneUnsynced(m, next);
    WithoutFirst(second, end);
    w := AcceptOldest(w, m, next);
    var kept := {1} + Numbers(3, m + 2);
    assert w.files * w.synced <= kept <= w.files + w.synced;
    w := Extend(w, Crash(kept), m, next);
  }

  /**
   If the capacity is raised, a 409 can hit a report that was never stored: its eviction was not yet synced
   when a later removal failed, a newer report was stored, a crash revived the evicted file, and the larger
   spool no longer trims it away.
   */
  lemma RaisedCapacityConflicts(m: nat, next: nat) returns (w: World)
    requires 1 <= m < next
    ensures Possible(w, m, next) && w.lock == Free
    ensures w.phase.Awaiting? && (w.phase.attempt, 409) in w.replies && w.phase.s !in w.accepted
    ensures w.phase.s in w.enqueued && w.phase.s !in w.evicted && w.phase.s !in w.refused
  {
    w := ReviveOldest(m, next);
    var files := w.files;
    CountNumbers(3, m + 2);
    assert |files| == m + 1 && 1 in files && Spools.Oldest(files) == 1;
    w := Restart(w, m, next);
    w := Extend(w, TrimDone, m, next);
    w := SendOldest(w, m, next);
  }

  /** The sender takes the 409 for an acceptance and removes the report: it is nowhere any more. */
  lemma RaisedCapacityLosesAReport(m: nat, next: nat) returns (w: World, n: nat)
    requires 1 <= m < next
    ensures Possible(w, m, next)
    ensures n in w.enqueued && n !in w.files && n !in w.evicted && n !in w.accepted && n !in w.refused
  {
    w := RaisedCapacityConflicts(m, next);
    n := w.phase.s;
    w := Extend(w, Receive(409), m, next);
    w := Extend(w, Remove, m, next);
  }

  /** Every 409 for the report in hand is true, in every run whose capacity changes from m to next. */
  ghost predicate ConflictsAreTrue(m: nat, next: nat) {
    forall w: World | Possible(w, m, next) && w.phase.Awaiting? && (w.phase.attempt, 409) in w.replies ::
      w.phase.s in w.accepted
  }

  /** No enqueued report vanishes, in every run whose capacity changes from m to next. */
  ghost predicate NothingIsLost(m: nat, next: nat) {
    forall w: World, n: nat | Possible(w, m, next) && n in w.enqueued ::
      n in w.files || n in w.evicted || n in w.accepted || n in w.refused
  }

  /** The capacity may change exactly downwards: both promises hold if and only if it is not raised. */
  lemma SafeIffCapacityNotRaised(m: nat, next: nat)
    requires m >= 1
    ensures ConflictsAreTrue(m, next) <==> next <= m
    ensures NothingIsLost(m, next) <==> next <= m
  {
    if next <= m {
      forall w: World | Possible(w, m, next) ensures Inv(w) {
        var run :| Changes(run, m, next) && Walk(m, run) == Some(w);
        LoweringIsPermitted(m, next, run);
        ReachableFits(m, run);
      }
    } else {
      var w := RaisedCapacityConflicts(m, next);
      var v, n := RaisedCapacityLosesAReport(m, next);
    }
  }
}
