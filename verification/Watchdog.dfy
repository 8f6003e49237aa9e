/** The face watchdog of `service_windows.go`: one scanner and any number of face workers
    sharing the `running` map, interleaved at every lock release. */
module Watchdog {

  /** A worker runs its face, perhaps waits after a failed launch, then gives up its slot. */
  datatype Phase = Launched | WaitsToRetry | Releasing | Gone

  datatype Worker = Worker(session: nat, phase: Phase)

  /** Between scans; at entry `i` of one; or with entry `i` claimed and its worker not yet
      started. */
  datatype Scanner = Between | At(sessions: seq<nat>, i: nat) | Starting(sessions: seq<nat>, i: nat)

  datatype World = World(running: set<nat>, workers: seq<Worker>, scanner: Scanner)

  datatype Move =
    | Enumerate(sessions: seq<nat>)
    | Claim
    | Start
    | FaceExits(k: nat)
    | LaunchFails(k: nat)
    | WaitEnds(k: nat)
    | Release(k: nat)

  const IDLE := World({}, [], Between)

  function Advanced(sessions: seq<nat>, i: nat): Scanner {
    if i + 1 < |sessions| then At(sessions, i + 1) else Between
  }

  function Apply(w: World, move: Move): World {
    match move
    case Enumerate(sessions) =>
      if w.scanner.Between? && sessions != [] then w.(scanner := At(sessions, 0)) else w
    case Claim =>
      if !w.scanner.At? || w.scanner.i >= |w.scanner.sessions| then w
      else
        var session := w.scanner.sessions[w.scanner.i];
        if session in w.running then w.(scanner := Advanced(w.scanner.sessions, w.scanner.i))
        else w.(running := w.running + {session}, scanner := Starting(w.scanner.sessions, w.scanner.i))
    case Start =>
      if !w.scanner.Starting? || w.scanner.i >= |w.scanner.sessions| then w
      else w.(workers := w.workers + [Worker(w.scanner.sessions[w.scanner.i], Launched)],
              scanner := Advanced(w.scanner.sessions, w.scanner.i))
    case FaceExits(k) => Becomes(w, k, Launched, Releasing)
    case LaunchFails(k) => Becomes(w, k, Launched, WaitsToRetry)
    case WaitEnds(k) => Becomes(w, k, WaitsToRetry, Releasing)
    case Release(k) =>
      if k < |w.workers| && w.workers[k].phase.Releasing?
      then Becomes(w, k, Releasing, Gone).(running := w.running - {w.workers[k].session}) else w
  }

  function Becomes(w: World, k: nat, before: Phase, after: Phase): World {
    if k < |w.workers| && w.workers[k].phase == before
    then w.(workers := w.workers[k := w.workers[k].(phase := after)]) else w
  }

  function Run(w: World, moves: seq<Move>): World {
    if moves == [] then w else Apply(Run(w, moves[..|moves| - 1]), moves[|moves| - 1])
  }

  /** The sessions a live worker holds, or the scanner is about to start one for. */
  predicate Held(w: World, session: nat) {
    || (exists k :: 0 <= k < |w.workers| && !w.workers[k].phase.Gone? && w.workers[k].session == session)
    || (w.scanner.Starting? && w.scanner.i < |w.scanner.sessions| && w.scanner.sessions[w.scanner.i] == session)
  }

  ghost predicate Inv(w: World) {
    && (w.scanner.Starting? ==>
         && w.scanner.i < |w.scanner.sessions|
         && forall k :: 0 <= k < |w.workers| && !w.workers[k].phase.Gone? ==>
              w.workers[k].session != w.scanner.sessions[w.scanner.i])
    && (forall j, k :: 0 <= j < k < |w.workers| && !w.workers[j].phase.Gone? && !w.workers[k].phase.Gone? ==>
         w.workers[j].session != w.workers[k].session)
    && (forall session :: session in w.running <==> Held(w, session))
  }

  lemma KeptByBecoming(w: World, k: nat, before: Phase, after: Phase)
    requires Inv(w) && !before.Gone? && !after.Gone?
    ensures Inv(Becomes(w, k, before, after))
  {
    var v := Becomes(w, k, before, after);
    forall session ensures session in v.running <==> Held(v, session) {
      if j :| 0 <= j < |w.workers| && !w.workers[j].phase.Gone? && w.workers[j].session == session {
        assert v.workers[j].session == session;
      }
    }
  }

  lemma KeptByRelease(w: World, k: nat)
    requires Inv(w)
    ensures Inv(Apply(w, Release(k)))
  {
    var v := Apply(w, Release(k));
    forall session ensures session in v.running <==> Held(v, session) {
      if j :| 0 <= j < |w.workers| && !w.workers[j].phase.Gone? && w.workers[j].session == session {
        assert v.workers[j].session == session;
      }
    }
  }

  lemma KeptByScanner(w: World, move: Move)
    requires Inv(w) && (move.Enumerate? || move.Claim? || move.Start?)
    ensures Inv(Apply(w, move))
  {
    var v := Apply(w, move);
    forall session ensures session in v.running <==> Held(v, session) {
      if j :| 0 <= j < |w.workers| && !w.workers[j].phase.Gone? && w.workers[j].session == session {
        assert v.workers[j].session == session;
      }
      if |v.workers| > |w.workers| {
        assert !v.workers[|w.workers|].phase.Gone?;
      }
    }
  }

  /** In every interleaving no two live workers share a session and `running` is exactly the
      set of held sessions. */
  lemma {:induction false} OneFaceASession(moves: seq<Move>)
    ensures Inv(Run(IDLE, moves))
  {
    if moves != [] {
      OneFaceASession(moves[..|moves| - 1]);
      var w := Run(IDLE, moves[..|moves| - 1]);
      match moves[|moves| - 1]
      case FaceExits(k) => KeptByBecoming(w, k, Launched, Releasing);
      case LaunchFails(k) => KeptByBecoming(w, k, Launched, WaitsToRetry);
      case WaitEnds(k) => KeptByBecoming(w, k, WaitsToRetry, Releasing);
      case Release(k) => KeptByRelease(w, k);
      case move => KeptByScanner(w, move);
    }
  }

  /** Going past an entry of a scan, its session is held. */
  lemma ScannedSessionIsHeld(moves: seq<Move>)
    requires var w := Run(IDLE, moves); w.scanner.At? && w.scanner.i < |w.scanner.sessions|
    ensures var w := Run(IDLE, moves); Held(Apply(w, Claim), w.scanner.sessions[w.scanner.i])
  {
    var w := Run(IDLE, moves);
    OneFaceASession(moves);
    KeptByScanner(w, Claim);
    assert w.scanner.sessions[w.scanner.i] in Apply(w, Claim).running;
  }

  // ---------- Slots are kept, and lead to a face ----------

  /** A slot is given up only by a worker of that very session that is done with it. */
  lemma SlotGivenUpByItsWorker(w: World, move: Move, session: nat)
    requires session in w.running && session !in Apply(w, move).running
    ensures move.Release? && move.k < |w.workers| && w.workers[move.k] == Worker(session, Releasing)
  {
  }

  /** Some worker was started for the session. */
  predicate Started(w: World, session: nat) {
    exists k :: 0 <= k < |w.workers| && w.workers[k].session == session
  }

  lemma StartedStays(w: World, move: Move, session: nat)
    requires Started(w, session)
    ensures Started(Apply(w, move), session)
  {
    var k :| 0 <= k < |w.workers| && w.workers[k].session == session;
    assert Apply(w, move).workers[k].session == session;
  }

  /** Every entry the scan has gone past has had a worker. */
  ghost predicate StartedSoFar(w: World) {
    match w.scanner
    case Between => true
    case At(sessions, i) => i < |sessions| && forall e :: 0 <= e < i ==> Started(w, sessions[e])
    case Starting(sessions, i) => i < |sessions| && forall e :: 0 <= e < i ==> Started(w, sessions[e])
  }

  /** The entry at hand has a worker once the scan goes past it. */
  lemma EntryIsStarted(w: World, move: Move)
    requires Inv(w) && StartedSoFar(w) && !w.scanner.Between?
    requires Apply(w, move).scanner == Advanced(w.scanner.sessions, w.scanner.i)
    ensures Started(Apply(w, move), w.scanner.sessions[w.scanner.i])
  {
    var v, session := Apply(w, move), w.scanner.sessions[w.scanner.i];
    if w.scanner.Starting? {
      assert v.workers[|w.workers|].session == session;
    } else {
      assert session in w.running && Held(w, session);
      var k :| 0 <= k < |w.workers| && !w.workers[k].phase.Gone? && w.workers[k].session == session;
      assert v.workers[k].session == session;
    }
  }

  lemma ScanMoves(w: World, move: Move)
    requires !w.scanner.Between?
    ensures var v := Apply(w, move);
            || v.scanner == w.scanner
            || v.scanner == Advanced(w.scanner.sessions, w.scanner.i)
            || (w.scanner.At? && v.scanner == Starting(w.scanner.sessions, w.scanner.i))
  {
  }

  lemma StartedSoFarKept(w: World, move: Move)
    requires Inv(w) && StartedSoFar(w)
    ensures StartedSoFar(Apply(w, move))
    ensures !w.scanner.Between? && Apply(w, move).scanner.Between? ==>
              forall e :: 0 <= e < |w.scanner.sessions| ==> Started(Apply(w, move), w.scanner.sessions[e])
  {
    if !w.scanner.Between? {
      var v, sessions, i := Apply(w, move), w.scanner.sessions, w.scanner.i;
      ScanMoves(w, move);
      forall e | 0 <= e < i ensures Started(v, sessions[e]) {
        StartedStays(w, move, sessions[e]);
      }
      if v.scanner == Advanced(sessions, i) && v.scanner != w.scanner {
        EntryIsStarted(w, move);
      }
    }
  }

  lemma {:induction false} StartedSoFarAlways(moves: seq<Move>)
    ensures StartedSoFar(Run(IDLE, moves))
  {
    if moves != [] {
      StartedSoFarAlways(moves[..|moves| - 1]);
      OneFaceASession(moves[..|moves| - 1]);
      StartedSoFarKept(Run(IDLE, moves[..|moves| - 1]), moves[|moves| - 1]);
    }
  }

  /** When a scan ends, every session it returned has had a worker started. */
  lemma FinishedScanStartedAll(moves: seq<Move>, move: Move, e: nat)
    requires var w := Run(IDLE, moves);
             !w.scanner.Between? && Apply(w, move).scanner.Between? && e < |w.scanner.sessions|
    ensures Started(Apply(Run(IDLE, moves), move), Run(IDLE, moves).scanner.sessions[e])
  {
    StartedSoFarAlways(moves);
    OneFaceASession(moves);
    StartedSoFarKept(Run(IDLE, moves), move);
  }

  /** A session without a slot gets a new worker, launching its face, at the next scan. */
  lemma FreeSessionIsLaunched(w: World, session: nat)
    requires w.scanner.Between? && session !in w.running
    ensures var v := Apply(Apply(Apply(w, Enumerate([session])), Claim), Start);
            && v.workers == w.workers + [Worker(session, Launched)]
            && v.running == w.running + {session} && v.scanner.Between?
  {
  }

  /** A face that exits or fails to launch gives its slot up, so that it comes back. */
  lemma LostFaceFreesItsSlot(w: World, k: nat)
    requires k < |w.workers| && w.workers[k].phase.Launched?
    ensures var session := w.workers[k].session;
            && session !in Apply(Apply(w, FaceExits(k)), Release(k)).running
            && session !in Apply(Apply(Apply(w, LaunchFails(k)), WaitEnds(k)), Release(k)).running
  {
  }

  /** A failed launch holds its slot until the wait is over. */
  lemma FailedLaunchHoldsItsSlot(w: World, k: nat)
    requires k < |w.workers| && w.workers[k].phase.Launched?
    ensures var v := Apply(w, LaunchFails(k));
            && v.workers[k] == Worker(w.workers[k].session, WaitsToRetry) && v.running == w.running
            && Apply(v, Release(k)) == v
  {
  }
}
