/**
 Safety of the delivery protocol: what every reachable world keeps, and from it the four promises
 of the design: a 409 for the report in flight means that very report is stored, every enqueued
 report is accounted for, acceptances strictly increase, and the spool is always a suffix.
 */
module DeliverySafety {
  import opened Prelude
  import Spools
  import Senders
  import opened Delivery

  // ----- the spool directory -----

  /** The files that survive any crash and are newer than x. */
  function Newer(w: World, x: nat): set<nat> {
    set z | z in w.files && z in w.synced && z > x
  }

  /** Nothing enqueued after x is missing, and nothing sent is newer than x. */
  ghost predicate Solid(w: World, x: nat) {
    && (forall y | y in w.enqueued && y > x :: y in w.files)
    && (forall a | 0 <= a < |w.requests| :: w.requests[a] <= x)
  }

  /** Whatever a crash revives, start-up trims x away: enough newer files survive to fill the spool. */
  predicate Doomed(w: World, x: nat) {
    |Newer(w, x)| >= w.maximum + if w.lock == Free || w.lock.Committed? then 1 else 0
  }

  ghost predicate FilesFit(w: World) {
    && (forall x | x in w.files + w.synced :: x in w.enqueued || w.lock == Committed(x))
    && (w.lock == Down ==> w.files == w.synced)
    && (w.lock.Committed? ==> w.lock.n in w.files && w.lock.n !in w.synced && w.files - {w.lock.n} <= w.synced)
    && (!w.lock.Committed? ==> w.files <= w.synced)
    && (Running(w) ==> forall x | x in w.files :: Solid(w, x))
    && (forall x | x in w.files + w.synced :: Solid(w, x) || Doomed(w, x))
    && (w.lock == Free || w.lock.Committed? || w.lock == Trimming ==>
          forall x | x in w.synced - w.files :: Doomed(w, x))
    && (w.lock == Trimming || w.lock == Starting ==>
          forall x, y | x in w.synced - w.files && y in w.files :: x < y)
  }

  /** Numbers: those handed out are new, those enqueued were handed out. */
  ghost predicate NumbersFit(w: World) {
    && (forall n | n in w.enqueued :: 0 < n <= w.drawn)
    && (w.held.Some? ==> 0 < w.held.value <= w.drawn
                         && (forall n | n in w.enqueued :: n < w.held.value)
                         && w.held.value !in w.files + w.synced)
    && (w.lock.Committed? ==> 0 < w.lock.n <= w.drawn && w.held.None?
                              && forall n | n in w.enqueued :: n < w.lock.n)
  }

  /** The report the sender has in hand is at most everything in the spool and at least everything ever sent. */
  ghost predicate InHand(w: World, s: nat) {
    && s in w.enqueued && Running(w)
    && (forall x | x in w.files :: s <= x)
    && (forall a | 0 <= a < |w.requests| :: w.requests[a] <= s)
  }

  ghost predicate SenderFits(w: World) {
    match w.phase
    case Looking => true
    case Waiting => Running(w)
    case Holding(s) => InHand(w, s)
    case Awaiting(s, attempt) =>
      && InHand(w, s) && attempt < |w.requests| && w.requests[attempt] == s
      && ((attempt, 409) in w.replies ==> s in w.accepted)
    case Settled(s) => InHand(w, s) && (s in w.accepted || s in w.refused)
  }

  ghost predicate ServerFits(w: World) {
    && (forall a | 0 <= a < |w.requests| :: w.requests[a] in w.enqueued)
    && (forall r | r in w.replies ::
          r.0 < |w.requests| && (Senders.Delivered(Senders.Status(r.1)) ==> w.requests[r.0] in w.accepted))
    && w.last == (if w.accepted == [] then 0 else Last(w.accepted))
    && (forall i, j | 0 <= i < j < |w.accepted| :: w.accepted[i] < w.accepted[j])
    && (forall n | n in w.accepted :: n in w.requests)
  }

  /** Every report durably enqueued is in the spool, was evicted, was accepted, or was refused for good. */
  ghost predicate Accounted(w: World) {
    && (forall n | n in w.enqueued :: n in w.files || n in w.evicted || n in w.accepted || n in w.refused)
    && w.evicted !! w.files && w.evicted <= w.enqueued
  }

  /** No wake-up is lost. */
  predicate WakeFits(w: World) {
    Running(w) && w.phase == Waiting && w.files != {} ==> w.wake
  }

  ghost predicate Inv(w: World) {
    && (w.lock == Removing ==> w.phase.Settled? && w.phase.s !in w.files)
    && (w.lock == Starting || w.lock == Down ==> w.phase == Looking && w.held.None?)
    && FilesFit(w) && NumbersFit(w) && SenderFits(w) && ServerFits(w) && Accounted(w) && WakeFits(w)
  }

  // ----- steps that leave the directory alone -----

  predicate SameDirectory(w: World, v: World) {
    && v.files == w.files && v.synced == w.synced && v.lock == w.lock
    && v.maximum == w.maximum && v.enqueued == w.enqueued
  }

  lemma SameDirectoryFits(w: World, v: World)
    requires FilesFit(w) && SameDirectory(w, v)
    requires forall x | x in w.files + w.synced && Solid(w, x) :: Solid(v, x) || Doomed(v, x)
    requires Running(w) ==> forall x | x in w.files :: Solid(v, x)
    ensures FilesFit(v)
  {
    forall x ensures Newer(v, x) == Newer(w, x) && Doomed(v, x) == Doomed(w, x) {
    }
  }

  lemma SameRequestsFit(w: World, v: World)
    requires FilesFit(w) && SameDirectory(w, v) && v.requests == w.requests
    ensures FilesFit(v)
  {
    assert forall x | Solid(w, x) :: Solid(v, x);
    SameDirectoryFits(w, v);
  }

  lemma CollectorKeepsInv(w: World, e: Event)
    requires Inv(w) && Permitted(w, e) && (e.Draw? || e.Discard?)
    ensures Inv(Next(w, e))
  {
    SameRequestsFit(w, Next(w, e));
  }

  /** The sender moves on without touching the spool. */
  lemma PhaseLeavesFiles(w: World, v: World)
    requires FilesFit(w) && v == w.(phase := v.phase, wake := v.wake, refused := v.refused)
    ensures FilesFit(v)
  {
    SameRequestsFit(w, v);
  }

  lemma LookKeepsInv(w: World, e: Event)
    requires Inv(w) && Permitted(w, e) && (e.Look? || e.WakeUp? || e.Lose? || e.RemoveFails?)
    ensures Inv(Next(w, e))
  {
    PhaseLeavesFiles(w, Next(w, e));
    if e.Look? && w.files != {} {
      assert Solid(w, Spools.Oldest(w.files));
    }
  }

  /** The sender has read an answer: it repeats the attempt, or goes on to acknowledge the report. */
  ghost predicate Answered(w: World, v: World, status: int) {
    && w.phase.Awaiting?
    && var s, answer := w.phase.s, Senders.Status(status);
    v == if Senders.Retryable(answer) then w.(phase := Holding(s))
         else if Senders.Delivered(answer) || status == 409 then w.(phase := Settled(s))
         else w.(phase := Settled(s), refused := w.refused + {s})
  }

  lemma ReceiveKeepsSender(w: World, v: World, status: int)
    requires SenderFits(w) && ServerFits(w) && Answered(w, v, status)
    requires (w.phase.attempt, status) in w.replies
    ensures SenderFits(v)
  {
    var s := w.phase.s;
    assert InHand(v, s);
    if Senders.Delivered(Senders.Status(status)) || status == 409 {
      assert s in w.accepted;
    }
  }

  lemma PhaseIsNobodyElses(w: World, v: World)
    requires NumbersFit(w) && ServerFits(w) && Accounted(w)
    requires v == w.(phase := v.phase, refused := v.refused) && w.refused <= v.refused
    ensures NumbersFit(v) && ServerFits(v) && Accounted(v)
  {
  }

  lemma ReceiveKeepsInv(w: World, status: int)
    requires Inv(w) && Enabled(w, Receive(status))
    ensures Inv(Next(w, Receive(status)))
  {
    var v := Next(w, Receive(status));
    assert Answered(w, v, status);
    PhaseLeavesFiles(w, v);
    ReceiveKeepsSender(w, v, status);
    PhaseIsNobodyElses(w, v);
  }

  lemma SendKeepsInv(w: World)
    requires Inv(w) && Enabled(w, Send)
    ensures Inv(Next(w, Send))
  {
    var v := Next(w, Send);
    forall x | x in w.files + w.synced && Solid(w, x) ensures Solid(v, x) || Doomed(v, x) {
      if x !in w.files {
        assert Doomed(w, x) && Newer(v, x) == Newer(w, x);
      }
    }
    SameDirectoryFits(w, v);
  }

  /** One request was processed: an answer more, and perhaps a report more. */
  ghost predicate Served(w: World, v: World, attempt: nat, verdict: Verdict)
    requires attempt < |w.requests|
  {
    var n, stored := w.requests[attempt], Inserts(w, w.requests[attempt], verdict);
    v == w.(replies := w.replies + {(attempt, StatusOf(w, n, verdict))},
            last := if stored then n else w.last,
            accepted := if stored then w.accepted + [n] else w.accepted)
  }

  lemma ServeKeepsServer(w: World, v: World, attempt: nat, verdict: Verdict)
    requires ServerFits(w) && NumbersFit(w) && attempt < |w.requests| && Served(w, v, attempt, verdict)
    ensures ServerFits(v)
  {
    assert w.requests[attempt] in w.requests && w.requests[attempt] > 0;
    if w.accepted != [] {
      assert Last(w.accepted) in w.accepted;
    }
    assert StatusOf(w, w.requests[attempt], verdict) == 202 ==> w.requests[attempt] in v.accepted;
  }

  /** The server's last number came from a request, and nothing sent exceeds the report in hand. */
  lemma NotAboveLastIsStored(w: World, s: nat)
    requires ServerFits(w) && InHand(w, s) && 0 < s <= w.last
    ensures s in w.accepted
  {
    assert Last(w.accepted) in w.accepted;
  }

  /** The answer to the attempt in hand is 409 only if its report is stored. */
  lemma ConflictIsTrue(w: World, v: World, attempt: nat, verdict: Verdict, s: nat, inHand: nat)
    requires ServerFits(w) && NumbersFit(w) && attempt < |w.requests| && Served(w, v, attempt, verdict)
    requires InHand(w, s) && inHand < |w.requests| && w.requests[inHand] == s
    requires (inHand, 409) in w.replies ==> s in w.accepted
    ensures (inHand, 409) in v.replies ==> s in v.accepted
  {
    if attempt == inHand && s <= w.last {
      NotAboveLastIsStored(w, s);
    }
  }

  lemma ServeKeepsSender(w: World, v: World, attempt: nat, verdict: Verdict)
    requires SenderFits(w) && ServerFits(w) && NumbersFit(w)
    requires attempt < |w.requests| && Served(w, v, attempt, verdict)
    ensures SenderFits(v)
  {
    match w.phase
    case Awaiting(s, inHand) =>
      ConflictIsTrue(w, v, attempt, verdict, s, inHand);
      assert InHand(v, s);
    case _ =>
  }

  lemma ServeKeepsInv(w: World, attempt: nat, verdict: Verdict)
    requires Inv(w) && Enabled(w, Serve(attempt, verdict))
    ensures Inv(Next(w, Serve(attempt, verdict)))
  {
    var v := Next(w, Serve(attempt, verdict));
    assert Served(w, v, attempt, verdict);
    ServeKeepsServer(w, v, attempt, verdict);
    ServeKeepsSender(w, v, attempt, verdict);
    ServerIsElsewhere(w, v);
  }

  /** What the server does reaches neither the spool nor the collector. */
  lemma ServerIsElsewhere(w: World, v: World)
    requires Inv(w) && v == w.(replies := v.replies, last := v.last, accepted := v.accepted)
    requires forall n | n in w.accepted :: n in v.accepted
    ensures FilesFit(v) && NumbersFit(v) && Accounted(v) && WakeFits(v)
  {
    SameRequestsFit(w, v);
  }

  // ----- steps on the directory -----

  ghost predicate Renamed(w: World, v: World) {
    && w.held.Some? && w.lock == Free
    && v == w.(files := w.files + {w.held.value}, lock := Committed(w.held.value), held := None, wake := true)
  }

  lemma CommitKeepsFile(w: World, v: World, x: nat)
    requires FilesFit(w) && NumbersFit(w) && Renamed(w, v)
    ensures Doomed(w, x) ==> Doomed(v, x)
    ensures Solid(w, x) ==> Solid(v, x)
  {
    assert Newer(v, x) == Newer(w, x);
  }

  lemma CommitKeepsFiles(w: World, v: World)
    requires FilesFit(w) && NumbersFit(w) && ServerFits(w) && Renamed(w, v)
    ensures FilesFit(v)
  {
    forall x | x in w.files + w.synced
      ensures (Doomed(w, x) ==> Doomed(v, x)) && (Solid(w, x) ==> Solid(v, x))
    {
      CommitKeepsFile(w, v, x);
    }
    assert Solid(v, w.held.value);
  }

  lemma CommitKeepsNumbers(w: World, v: World)
    requires NumbersFit(w) && SenderFits(w) && Renamed(w, v)
    ensures NumbersFit(v) && SenderFits(v)
  {
  }

  lemma CommitKeepsInv(w: World)
    requires Inv(w) && Enabled(w, Commit)
    ensures Inv(Next(w, Commit))
  {
    var v := Next(w, Commit);
    assert Renamed(w, v);
    CommitKeepsFiles(w, v);
    CommitKeepsNumbers(w, v);
  }

  lemma SyncCommitKeepsInv(w: World)
    requires Inv(w) && Enabled(w, SyncCommit)
    ensures Inv(Next(w, SyncCommit))
  {
    var v := Next(w, SyncCommit);
    assert FilesFit(v);
  }

  lemma EvictKeepsFiles(w: World)
    requires Inv(w) && Enabled(w, Evict)
    ensures FilesFit(Next(w, Evict))
  {
    var v := Next(w, Evict);
    var m := Spools.Oldest(w.files);
    forall x, y | x in v.synced - v.files && y in v.files ensures x < y {
      assert x == m || x in w.synced - w.files;
    }
    forall x | x in v.synced - v.files ensures Doomed(v, x) {
      assert Newer(v, x) == v.files;
    }
    forall x | x in v.files ensures Newer(v, x) == Newer(w, x) && (Solid(w, x) ==> Solid(v, x)) {
    }
  }

  lemma EvictKeepsInv(w: World)
    requires Inv(w) && Enabled(w, Evict)
    ensures Inv(Next(w, Evict))
  {
    EvictKeepsFiles(w);
  }

  lemma TrimEndKeepsInv(w: World, e: Event)
    requires Inv(w) && Permitted(w, e) && (e.TrimDone? || e.TrimFails?)
    ensures Inv(Next(w, e))
  {
    var v := Next(w, e);
    forall x | x in w.files && e.TrimDone? ensures Solid(w, x) {
      if !Solid(w, x) {
        SubsetSize(Newer(w, x), w.files - {x});
      }
    }
    forall x | x in w.synced - w.files && e.TrimFails? ensures Doomed(v, x) {
      assert Newer(v, x) == w.files;
    }
  }

  lemma RemoveKeepsFiles(w: World)
    requires Inv(w) && Enabled(w, Remove)
    ensures FilesFit(Next(w, Remove))
  {
    var v, s := Next(w, Remove), w.phase.s;
    assert forall x | x in v.files :: Solid(v, x);
    forall x | x in w.synced && !Solid(v, x) ensures Doomed(v, x) {
      assert x in w.synced - w.files;
      assert Newer(w, x) <= Newer(v, x) + {s};
      SubsetSize(Newer(w, x), Newer(v, x) + {s});
    }
  }

  lemma RemoveKeepsInv(w: World)
    requires Inv(w) && Enabled(w, Remove)
    ensures Inv(Next(w, Remove))
  {
    RemoveKeepsFiles(w);
  }

  lemma SyncRemoveKeepsInv(w: World)
    requires Inv(w) && Enabled(w, SyncRemove)
    ensures Inv(Next(w, SyncRemove))
  {
    var v := Next(w, SyncRemove);
    assert forall x | x in v.files :: Solid(v, x);
    assert FilesFit(v);
  }

  lemma CrashKeepsFiles(w: World, kept: set<nat>)
    requires Inv(w) && Enabled(w, Crash(kept))
    ensures FilesFit(Next(w, Crash(kept)))
  {
    var v := Next(w, Crash(kept));
    forall x | x in v.files ensures Solid(v, x) || Doomed(v, x) {
      if !Solid(w, x) {
        SubsetSize(Newer(w, x), Newer(v, x));
      }
    }
  }

  lemma CrashKeepsInv(w: World, kept: set<nat>)
    requires Inv(w) && Enabled(w, Crash(kept))
    ensures Inv(Next(w, Crash(kept)))
  {
    CrashKeepsFiles(w, kept);
  }

  lemma StartKeepsInv(w: World, maximum: nat)
    requires Inv(w) && Permitted(w, Start(maximum))
    ensures Inv(Next(w, Start(maximum)))
  {
    var v := Next(w, Start(maximum));
    forall x ensures Newer(v, x) == Newer(w, x) && (Solid(w, x) ==> Solid(v, x)) {
    }
    assert FilesFit(v);
  }

  lemma {:induction false} ReachableFits(maximum: nat, run: seq<Event>)
    requires Reach(maximum, run).Some?
    ensures Inv(Reach(maximum, run).value)
  {
    if run != [] {
      ReachableFits(maximum, Init(run));
      var w, e := Reach(maximum, Init(run)).value, Last(run);
      match e
      case Send => SendKeepsInv(w);
      case Serve(attempt, verdict) => ServeKeepsInv(w, attempt, verdict);
      case Commit => CommitKeepsInv(w);
      case SyncCommit => SyncCommitKeepsInv(w);
      case Evict => EvictKeepsInv(w);
      case TrimDone => TrimEndKeepsInv(w, e);
      case TrimFails => TrimEndKeepsInv(w, e);
      case Remove => RemoveKeepsInv(w);
      case SyncRemove => SyncRemoveKeepsInv(w);
      case Crash(kept) => CrashKeepsInv(w, kept);
      case Start(m) => StartKeepsInv(w, m);
      case Draw(_) => CollectorKeepsInv(w, e);
      case Discard => CollectorKeepsInv(w, e);
      case Receive(status) => ReceiveKeepsInv(w, status);
      case _ => LookKeepsInv(w, e);
    }
  }
}
