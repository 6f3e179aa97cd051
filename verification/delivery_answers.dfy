/**
 Which answers end a report's delivery, with the HTTP statuses written out: over every run of the delivery
 protocol a report is given up only after 400 or 422, and leaves the spool, except by eviction, only after an
 answer 202, 400, 409 or 422 to an attempt of its own.
 */
module DeliveryAnswers {
  import opened Prelude
  import Senders
  import opened Delivery
  import opened DeliverySafety

  // ----- one answer -----

  /** An answer that says try again leaves everything but the sender's place as it was: it holds the report again. */
  lemma RetryKeepsTheReport(w: World, status: int)
    requires Enabled(w, Receive(status))
    requires status == 401 || status == 403 || status == 404 || status == 408 || status == 425 || status == 429
             || status >= 500
    ensures Next(w, Receive(status)) == w.(phase := Holding(w.phase.s))
  {
  }

  /** Any other answer is final; it counts as a refusal unless it is 2xx or 409. */
  lemma OtherAnswersAreFinal(w: World, status: int)
    requires Enabled(w, Receive(status)) && status < 500
    requires status != 401 && status != 403 && status != 404 && status != 408 && status != 425 && status != 429
    ensures var refused := !(200 <= status < 300) && status != 409;
            Next(w, Receive(status)) ==
            w.(phase := Settled(w.phase.s), refused := if refused then w.refused + {w.phase.s} else w.refused)
  {
  }

  // ----- runs -----

  /** The server answered an attempt of this report with this status. */
  predicate Replied(w: World, r: (nat, int), n: nat) {
    r in w.replies && r.0 < |w.requests| && w.requests[r.0] == n
  }

  ghost predicate GivenUp(w: World, n: nat) {
    exists r :: Replied(w, r, n) && (r.1 == 400 || r.1 == 422)
  }

  /** Its delivery is over. */
  ghost predicate Concluded(w: World, n: nat) {
    exists r :: Replied(w, r, n) && (r.1 == 202 || r.1 == 400 || r.1 == 409 || r.1 == 422)
  }

  ghost predicate AnswersFit(w: World) {
    && (forall r | r in w.replies ::
          r.1 == 202 || r.1 == 400 || r.1 == 401 || r.1 == 409 || r.1 == 422 || r.1 == 429 || r.1 == 500)
    && (forall n | n in w.refused :: GivenUp(w, n))
    && (w.phase.Settled? ==> Concluded(w, w.phase.s))
    && (forall n | n in w.enqueued :: n in w.files || n in w.evicted || Concluded(w, n))
  }

  /** Requests and replies only grow. */
  ghost predicate Remembers(w: World, v: World) {
    && w.replies <= v.replies && |w.requests| <= |v.requests|
    && forall a | 0 <= a < |w.requests| :: v.requests[a] == w.requests[a]
  }

  lemma RepliesAreKept(w: World, v: World, n: nat)
    requires Remembers(w, v)
    ensures GivenUp(w, n) ==> GivenUp(v, n)
    ensures Concluded(w, n) ==> Concluded(v, n)
  {
    if GivenUp(w, n) {
      var r :| Replied(w, r, n) && (r.1 == 400 || r.1 == 422);
      assert Replied(v, r, n);
    }
    if Concluded(w, n) {
      var r :| Replied(w, r, n) && (r.1 == 202 || r.1 == 400 || r.1 == 409 || r.1 == 422);
      assert Replied(v, r, n);
    }
  }

  /** Steps that answer nothing and finish nothing. */
  lemma OtherStepsKeepAnswers(w: World, v: World)
    requires AnswersFit(w) && Remembers(w, v) && v.refused == w.refused
    requires v.replies == w.replies || forall r | r in v.replies - w.replies ::
               r.1 == 202 || r.1 == 400 || r.1 == 401 || r.1 == 409 || r.1 == 422 || r.1 == 429 || r.1 == 500
    requires v.phase.Settled? ==> v.phase == w.phase
    requires forall n | n in v.enqueued && n !in v.files && n !in v.evicted ::
               n in w.enqueued && ((n !in w.files && n !in w.evicted) || (w.phase == Phase.Settled(n)))
    ensures AnswersFit(v)
  {
    forall n ensures (GivenUp(w, n) ==> GivenUp(v, n)) && (Concluded(w, n) ==> Concluded(v, n)) {
      RepliesAreKept(w, v, n);
    }
  }

  /** The answer was final. */
  lemma FinalAnswerKeepsAnswers(w: World, v: World, attempt: nat, status: int, s: nat, refused: bool)
    requires AnswersFit(w) && Replied(w, (attempt, status), s)
    requires status == 202 || status == 400 || status == 409 || status == 422
    requires refused ==> status == 400 || status == 422
    requires v == w.(phase := Settled(s), refused := if refused then w.refused + {s} else w.refused)
    ensures AnswersFit(v)
  {
    forall n ensures (GivenUp(w, n) ==> GivenUp(v, n)) && (Concluded(w, n) ==> Concluded(v, n)) {
      RepliesAreKept(w, v, n);
    }
    assert Replied(v, (attempt, status), s);
  }

  lemma ReceiveKeepsAnswers(w: World, status: int)
    requires SenderFits(w) && AnswersFit(w) && Enabled(w, Receive(status))
    ensures AnswersFit(Next(w, Receive(status)))
  {
    var s, attempt := w.phase.s, w.phase.attempt;
    if status == 401 || status == 429 || status == 500 {
      RetryKeepsTheReport(w, status);
      OtherStepsKeepAnswers(w, w.(phase := Holding(s)));
    } else {
      OtherAnswersAreFinal(w, status);
      FinalAnswerKeepsAnswers(w, Next(w, Receive(status)), attempt, status, s, status != 202 && status != 409);
    }
  }

  /** What is enqueued and not concluded is not lost in a crash. */
  lemma CrashKeepsAnswers(w: World, kept: set<nat>)
    requires Inv(w) && AnswersFit(w) && Enabled(w, Crash(kept))
    ensures AnswersFit(Next(w, Crash(kept)))
  {
    var v := Next(w, Crash(kept));
    OtherStepsKeepAnswers(w, v);
  }

  /** The spool's steps: only Evict and Remove take a file away. */
  lemma SpoolKeepsAnswers(w: World, e: Event)
    requires FilesFit(w) && AnswersFit(w) && Enabled(w, e)
    requires e.Commit? || e.SyncCommit? || e.Evict? || e.TrimDone? || e.TrimFails? || e.Remove? || e.RemoveFails?
             || e.SyncRemove?
    ensures AnswersFit(Next(w, e))
  {
    OtherStepsKeepAnswers(w, Next(w, e));
  }

  lemma StepKeepsAnswers(w: World, e: Event)
    requires Inv(w) && AnswersFit(w) && Enabled(w, e)
    ensures AnswersFit(Next(w, e))
  {
    match e
    case Receive(status) => ReceiveKeepsAnswers(w, status);
    case Crash(kept) => CrashKeepsAnswers(w, kept);
    case Serve(attempt, verdict) => ServeKeepsAnswers(w, attempt, verdict);
    case Draw(_) => OtherStepsKeepAnswers(w, Next(w, e));
    case Discard => OtherStepsKeepAnswers(w, Next(w, e));
    case Look => OtherStepsKeepAnswers(w, Next(w, e));
    case WakeUp => OtherStepsKeepAnswers(w, Next(w, e));
    case Send => OtherStepsKeepAnswers(w, Next(w, e));
    case Lose => OtherStepsKeepAnswers(w, Next(w, e));
    case Start(_) => OtherStepsKeepAnswers(w, Next(w, e));
    case _ => SpoolKeepsAnswers(w, e);
  }

  lemma ServeKeepsAnswers(w: World, attempt: nat, verdict: Verdict)
    requires AnswersFit(w) && attempt < |w.requests|
    ensures AnswersFit(Next(w, Serve(attempt, verdict)))
  {
    OtherStepsKeepAnswers(w, Next(w, Serve(attempt, verdict)));
  }

  lemma {:induction false} ReachableAnswersFit(maximum: nat, run: seq<Event>)
    requires Reach(maximum, run).Some?
    ensures AnswersFit(Reach(maximum, run).value)
  {
    if run != [] {
      ReachableAnswersFit(maximum, Init(run));
      ReachableFits(maximum, Init(run));
      StepKeepsAnswers(Reach(maximum, Init(run)).value, Last(run));
    }
  }

  /** A report is given up only after the server called it malformed or invalid. */
  lemma {:induction false} RefusedWasMalformedOrInvalid(maximum: nat, run: seq<Event>, n: nat)
    requires Reach(maximum, run).Some? && n in Reach(maximum, run).value.refused
    ensures GivenUp(Reach(maximum, run).value, n)
  {
    ReachableAnswersFit(maximum, run);
  }

  /**
   A durably enqueued report whose attempts were all lost or answered 401, 403, 404, 408, 425, 429 or with a
   server error is still in the spool or was evicted.
   */
  lemma {:induction false} OnlyFinalAnswersClearTheSpool(maximum: nat, run: seq<Event>, n: nat)
    requires Reach(maximum, run).Some?
    requires var w := Reach(maximum, run).value;
             && n in w.enqueued
             && forall r | Replied(w, r, n) ::
                  r.1 == 401 || r.1 == 403 || r.1 == 404 || r.1 == 408 || r.1 == 425 || r.1 == 429 || r.1 >= 500
    ensures var w := Reach(maximum, run).value; n in w.files || n in w.evicted
    ensures n !in Reach(maximum, run).value.refused
  {
    ReachableAnswersFit(maximum, run);
  }
}
