/**
 The delivery protocol between one agent and the server: collector, spool, sender, network and
 server, step by step. Steps are what happens between two scheduling points, with the spool's
 mutex as `lock`; a crash may come between any two, and may keep or undo each directory change
 that was not yet synced. Requests may be processed late, more than once, or with the answer lost.
 */
module Delivery {
  import opened Prelude
  import Spools
  import Senders

  /**
   Who holds the spool: nobody, Enqueue after its rename or while trimming, Acknowledge after its removal,
   start-up, or no process at all.
   */
  datatype Lock = Free | Committed(n: nat) | Trimming | Removing | Starting | Down

  /** Where the sender loop is. */
  datatype Phase =
    | Looking                          // about to Peek
    | Waiting                          // for the wake channel
    | Holding(s: nat)                  // about to send
    | Awaiting(s: nat, attempt: nat)   // the answer
    | Settled(s: nat)                  // about to Acknowledge

  datatype World = World(
    maximum: nat,                  // spool capacity of the running agent
    files: set<nat>,               // spool directory as seen now
    synced: set<nat>,              // as of the last directory sync
    lock: Lock,
    drawn: nat,                    // largest number Sequence.Next has returned
    held: Option<nat>,             // report collected but not yet committed
    wake: bool,
    phase: Phase,
    requests: seq<nat>,            // every attempt ever sent, by attempt number
    replies: set<(nat, int)>,      // answers produced so far: attempt and status
    last: nat,                     // the server's last_sequence
    accepted: seq<nat>,            // reports inserted, in order
    enqueued: set<nat>,            // reports durably committed to the spool
    evicted: set<nat>,             // dropped by the capacity bound
    refused: set<nat>)             // given up after a permanent status other than 409

  /** What the server does with one request. */
  datatype Verdict =
    | RateLimited | Malformed | Invalid | Unauthorized
    | StoreFailed(committed: bool)  // an error, possibly from a commit that went through
    | Stored

  datatype Event =
    | Draw(n: nat)
    | Discard
    | Commit
    | SyncCommit
    | Evict
    | TrimDone
    | TrimFails
    | Look
    | WakeUp
    | Send
    | Serve(attempt: nat, verdict: Verdict)
    | Receive(status: int)
    | Lose
    | Remove
    | RemoveFails
    | SyncRemove
    | Crash(kept: set<nat>)
    | Start(maximum: nat)

  predicate Running(w: World) {
    w.lock != Down && w.lock != Starting
  }

  /** SaveReport's guard: UPDATE ... WHERE last_sequence < ?. */
  predicate Inserts(w: World, n: nat, verdict: Verdict) {
    n > w.last && (verdict.Stored? || (verdict.StoreFailed? && verdict.committed))
  }

  /** The HTTP status of ingest. */
  function StatusOf(w: World, n: nat, verdict: Verdict): int {
    match verdict
    case RateLimited => 429
    case Malformed => 400
    case Invalid => 422
    case Unauthorized => 401
    case StoreFailed(_) => 500
    case Stored => if n > w.last then 202 else 409
  }

  predicate Enabled(w: World, e: Event) {
    match e
    // the collector goroutine
    case Draw(n) =>
      Running(w) && !w.lock.Committed? && !w.lock.Trimming? && w.held.None? && n > w.drawn
    case Discard => Running(w) && w.held.Some?
    case Commit => w.lock == Free && w.held.Some?
    case SyncCommit => w.lock.Committed?
    // trimLocked, in Enqueue or at start-up; only Enqueue survives its failure
    case Evict => (w.lock == Trimming || w.lock == Starting) && |w.files| > w.maximum
    case TrimDone => (w.lock == Trimming || w.lock == Starting) && |w.files| <= w.maximum
    case TrimFails => w.lock == Trimming && (|w.files| > w.maximum || w.files == w.synced)
    // the sender goroutine
    case Look => w.lock == Free && w.phase == Looking
    case WakeUp => Running(w) && w.phase == Waiting && w.wake
    case Send => Running(w) && w.phase.Holding?
    case Receive(status) => Running(w) && w.phase.Awaiting? && (w.phase.attempt, status) in w.replies
    case Lose => Running(w) && w.phase.Awaiting?
    case Remove => w.lock == Free && w.phase.Settled?
    case RemoveFails => w.lock == Free && w.phase.Settled?
    case SyncRemove => w.lock == Removing
    // the server, for any request ever sent
    case Serve(attempt, _) => attempt < |w.requests|
    // the machine
    case Crash(kept) => w.lock != Down && w.files * w.synced <= kept <= w.files + w.synced
    case Start(maximum) => w.lock == Down && maximum >= 1
  }

  function Next(w: World, e: Event): World
    requires Enabled(w, e)
  {
    match e
    case Draw(n) => w.(drawn := n, held := Some(n))
    case Discard => w.(held := None)
    case Commit =>
      w.(files := w.files + {w.held.value}, lock := Committed(w.held.value), held := None, wake := true)
    case SyncCommit => w.(synced := w.files, enqueued := w.enqueued + {w.lock.n}, lock := Trimming)
    case Evict =>
      var m := Spools.Oldest(w.files);
      w.(files := w.files - {m}, evicted := w.evicted + {m})
    case TrimDone => w.(synced := w.files, lock := Free)
    case TrimFails => w.(lock := Free)
    case Look => w.(phase := if w.files == {} then Waiting else Holding(Spools.Oldest(w.files)))
    case WakeUp => w.(wake := false, phase := Looking)
    case Send => w.(requests := w.requests + [w.phase.s], phase := Awaiting(w.phase.s, |w.requests|))
    case Receive(status) =>
      var s := w.phase.s;
      if Senders.Retryable(Senders.Status(status)) then w.(phase := Holding(s))
      else if Senders.Delivered(Senders.Status(status)) || status == 409 then w.(phase := Settled(s))
      else w.(phase := Settled(s), refused := w.refused + {s})
    case Lose => w.(phase := Holding(w.phase.s))
    case Remove => w.(files := w.files - {w.phase.s}, lock := Removing)
    case RemoveFails => w.(phase := Looking)
    case SyncRemove => w.(synced := w.files, lock := Free, phase := Looking)
    case Serve(attempt, verdict) =>
      var n := w.requests[attempt];
      var answered := w.(replies := w.replies + {(attempt, StatusOf(w, n, verdict))});
      if Inserts(w, n, verdict) then answered.(last := n, accepted := w.accepted + [n]) else answered
    case Crash(kept) =>
      w.(files := kept, synced := kept, lock := Down, held := None, wake := false, phase := Looking,
         enqueued := w.enqueued + if w.lock.Committed? && w.lock.n in kept then {w.lock.n} else {},
         evicted := w.evicted - kept)
    case Start(maximum) => w.(maximum := maximum, lock := Starting)
  }

  /** A new agent with an empty spool and a server that has not heard of it. */
  function Begin(maximum: nat): World {
    World(maximum, {}, {}, Down, 0, None, false, Looking, [], {}, 0, [], {}, {}, {})
  }

  /** The capacity is not raised from one start to the next. */
  predicate Permitted(w: World, e: Event) {
    Enabled(w, e) && (e.Start? ==> e.maximum <= w.maximum)
  }

  function Reach(maximum: nat, run: seq<Event>): Option<World> {
    if run == [] then Some(Begin(maximum))
    else
      var before := Reach(maximum, Init(run));
      if before.Some? && Permitted(before.value, Last(run)) then Some(Next(before.value, Last(run)))
      else None
  }
}
