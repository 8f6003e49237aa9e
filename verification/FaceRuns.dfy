/** Whole runs of the brain and its face: a face is unlocked only on the brain's word, and
    catches up with a brain that stands still. */
module FaceRuns {
  import opened Int64
  import opened LockEngine
  import opened BrainFace
  import LockRuns

  // ---------- Fail closed ----------

  /** An unlocked face either holds a live connection on which the last state it consumed
      said unlocked, and the brain was unlocked at some instant since that connection was
      made; or it has just lost its connection and its next stores lock it. */
  lemma UnlockedFaceWasTold(cfg: Config, moves: seq<Move>)
    ensures var w := BrainFace.Run(cfg, POWER_ON, moves);
            !w.face.locked ==>
              if w.pipe.Pipe?
              then && Latest(w.pipe.consumed).Pushed? && !Latest(w.pipe.consumed).ctrl.locked
                   && exists i :: w.pipe.since <= i < |w.history| && !w.history[i].locked
              else w.at.Closing? || w.at.StoresFailClosed?
  {
    var w := BrainFace.Run(cfg, POWER_ON, moves);
    InvHolds(cfg, moves);
    if !w.face.locked && w.pipe.Pipe? {
      var n := |w.pipe.consumed| - 1;
      assert w.pipe.consumed[n] == w.pipe.pushed[n];
      assert Witnessed(w.pipe.pushed[n], w.history, w.pipe.since);
    }
  }

  /** Only the lock flag of a state message, or failing closed, moves the face's lock: a
      PIN reply never does. */
  lemma OnlyStatesMoveTheLock(cfg: Config, w: World, move: Move)
    requires BrainFace.Apply(cfg, w, move).face.locked != w.face.locked
    ensures move.FaceStep? && (w.at.StoresLocked? || w.at.StoresFailClosed?)
    ensures w.at.StoresLocked? ==> BrainFace.Apply(cfg, w, move).face.locked == w.at.c.locked
    ensures w.at.StoresFailClosed? ==> BrainFace.Apply(cfg, w, move).face.locked
  {
  }

  function BrainSteps(moves: seq<Move>): seq<LockEngine.Step> {
    if moves == [] then []
    else BrainSteps(moves[..|moves| - 1]) + (if moves[|moves| - 1].Brain? then [moves[|moves| - 1].step] else [])
  }

  ghost predicate Records(cfg: Config, history: seq<Controller>, steps: seq<LockEngine.Step>) {
    && |history| == |steps| + 1
    && forall i :: 0 <= i <= |steps| ==> history[i] == LockEngine.Run(cfg, BOOT, steps[..i]).engine.ctrl
  }

  lemma RecordsLonger(cfg: Config, history: seq<Controller>, steps: seq<LockEngine.Step>, step: LockEngine.Step)
    requires Records(cfg, history, steps)
    ensures Records(cfg, history + [LockEngine.Run(cfg, BOOT, steps + [step]).engine.ctrl], steps + [step])
  {
    var longer := steps + [step];
    var more := history + [LockEngine.Run(cfg, BOOT, longer).engine.ctrl];
    forall i | 0 <= i <= |longer| ensures more[i] == LockEngine.Run(cfg, BOOT, longer[..i]).engine.ctrl {
      if i <= |steps| {
        assert longer[..i] == steps[..i];
      } else {
        assert longer[..i] == longer;
      }
    }
  }

  lemma BrainStepRecorded(cfg: Config, w: World, steps: seq<LockEngine.Step>, move: Move)
    requires w.brain == LockEngine.Run(cfg, BOOT, steps).engine && Records(cfg, w.history, steps)
    ensures var v, more := BrainFace.Apply(cfg, w, move), if move.Brain? then steps + [move.step] else steps;
            v.brain == LockEngine.Run(cfg, BOOT, more).engine && Records(cfg, v.history, more)
  {
    if move.Brain? {
      assert (steps + [move.step])[..|steps|] == steps;
      RecordsLonger(cfg, w.history, steps, move.step);
    }
  }

  /** The recorded history is the run of the brain's own steps. */
  lemma {:induction false} HistoryIsTheBrainsRun(cfg: Config, moves: seq<Move>)
    ensures BrainFace.Run(cfg, POWER_ON, moves).brain == LockEngine.Run(cfg, BOOT, BrainSteps(moves)).engine
    ensures Records(cfg, BrainFace.Run(cfg, POWER_ON, moves).history, BrainSteps(moves))
  {
    if moves == [] {
      assert BrainSteps([])[..0] == [];
    } else {
      var init, move := moves[..|moves| - 1], moves[|moves| - 1];
      HistoryIsTheBrainsRun(cfg, init);
      BrainStepRecorded(cfg, BrainFace.Run(cfg, POWER_ON, init), BrainSteps(init), move);
      assert BrainSteps(moves) == if move.Brain? then BrainSteps(init) + [move.step] else BrainSteps(init);
    }
  }

  /** End to end: for a connected face that is unlocked, at some instant since it connected
      the brain stood unlocked by a store that an allowed beat, a PIN the server accepted,
      or the matching local PIN after a failed unlock call had set going. */
  lemma FaceUnlockHasCause(cfg: Config, moves: seq<Move>)
    requires var w := BrainFace.Run(cfg, POWER_ON, moves); w.pipe.Pipe? && !w.face.locked
    ensures exists i, k, j :: BrainFace.Run(cfg, POWER_ON, moves).pipe.since <= i <= |BrainSteps(moves)|
              && 0 <= j < k < i && LockRuns.Unlocked(cfg, BrainSteps(moves)[..i], k, j)
  {
    var w, steps := BrainFace.Run(cfg, POWER_ON, moves), BrainSteps(moves);
    UnlockedFaceWasTold(cfg, moves);
    HistoryIsTheBrainsRun(cfg, moves);
    var i :| w.pipe.since <= i < |w.history| && !w.history[i].locked;
    LockRuns.UnlockedHasCause(cfg, steps[..i]);
  }

  // ---------- The mirror converges ----------

  /** The poll's partial sample agrees with `c`. */
  predicate Agrees(p: Poll, c: Controller) {
    match p
    case Waits => true
    case SawLocked(locked) => locked == c.locked
    case SawRemaining(locked, remaining) => locked == c.locked && remaining == c.remaining
    case Sampled(sample) => sample == c
  }

  /** Steps of polling left before the latest push is sure to be `c`. */
  function Lag(p: Pipe, c: Controller): nat
    requires p.Pipe?
  {
    if Agrees(p.poll, c) && p.last == Pushed(c) then 0
    else
      (match p.poll
       case Waits => 4
       case SawLocked(_) => 3
       case SawRemaining(_, _) => 2
       case Sampled(_) => 1) + (if Agrees(p.poll, c) then 0 else 4)
  }

  /** The brain's fields stay as they are and the connection stays up. */
  ghost predicate Steady(cfg: Config, w: World, moves: seq<Move>) {
    moves == [] ||
    var init := moves[..|moves| - 1];
    && Steady(cfg, w, init)
    && BrainFace.Run(cfg, w, moves).brain.ctrl == w.brain.ctrl
    && BrainFace.Run(cfg, w, moves).pipe.Pipe?
  }

  function Polls(moves: seq<Move>): nat {
    if moves == [] then 0 else Polls(moves[..|moves| - 1]) + (if moves[|moves| - 1].PollStep? then 1 else 0)
  }

  lemma PollShortensLag(cfg: Config, w: World, move: Move)
    requires w.pipe.Pipe? && InOrder(w)
    requires var v := BrainFace.Apply(cfg, w, move); v.pipe.Pipe? && v.brain.ctrl == w.brain.ctrl
    ensures var c, v := w.brain.ctrl, BrainFace.Apply(cfg, w, move);
            Lag(v.pipe, c) <= if move.PollStep? then Max(Lag(w.pipe, c), 1) - 1 else Lag(w.pipe, c)
  {
    if move.PollStep? {
      PollAdvances(w.pipe, w.brain.ctrl);
    } else {
      OthersKeepPoll(cfg, w, move);
    }
  }

  lemma PollAdvances(p: Pipe, c: Controller)
    requires p.Pipe?
    ensures Lag(PollNext(p, c), c) <= Max(Lag(p, c), 1) - 1
  {
  }

  lemma OthersKeepPoll(cfg: Config, w: World, move: Move)
    requires w.pipe.Pipe? && !w.at.Dialing? && !move.PollStep? && BrainFace.Apply(cfg, w, move).pipe.Pipe?
    ensures var q := BrainFace.Apply(cfg, w, move).pipe; q.poll == w.pipe.poll && q.last == w.pipe.last
  {
  }

  lemma {:induction false} PollingCatchesUp(cfg: Config, w: World, moves: seq<Move>)
    requires w.pipe.Pipe? && InOrder(w) && Steady(cfg, w, moves)
    ensures var v := BrainFace.Run(cfg, w, moves);
            v.pipe.Pipe? && v.brain.ctrl == w.brain.ctrl && InOrder(v)
            && Lag(v.pipe, w.brain.ctrl) + Polls(moves) <= Max(Lag(w.pipe, w.brain.ctrl), Polls(moves))
  {
    if moves != [] {
      var init := moves[..|moves| - 1];
      PollingCatchesUp(cfg, w, init);
      var u, move := BrainFace.Run(cfg, w, init), moves[|moves| - 1];
      StaysInOrder(cfg, u, move);
      PollShortensLag(cfg, u, move);
    }
  }

  /** Once the brain's fields stop changing, one more poll (seven steps at most, whatever
      half-read sample was underway) and an empty pipe make face and brain equal. */
  lemma MirrorConverges(cfg: Config, before: seq<Move>, moves: seq<Move>)
    requires var w := BrainFace.Run(cfg, POWER_ON, before); w.pipe.Pipe? && Steady(cfg, w, moves)
    requires Polls(moves) >= 7
    requires var v := BrainFace.Run(cfg, POWER_ON, before + moves);
             v.pipe.Pipe? && v.at.Reading? && States(v.pipe.toFace) == []
    ensures var v := BrainFace.Run(cfg, POWER_ON, before + moves); v.face == v.brain.ctrl
  {
    var w, v := BrainFace.Run(cfg, POWER_ON, before), BrainFace.Run(cfg, POWER_ON, before + moves);
    InvHolds(cfg, before);
    InvHolds(cfg, before + moves);
    RunAppend(cfg, POWER_ON, before, moves);
    PollingCatchesUp(cfg, w, moves);
    assert v.pipe.pushed == v.pipe.consumed;
  }

  lemma {:induction false} RunAppend(cfg: Config, w: World, a: seq<Move>, b: seq<Move>)
    ensures BrainFace.Run(cfg, w, a + b) == BrainFace.Run(cfg, BrainFace.Run(cfg, w, a), b)
  {
    if b == [] {
      assert a + b == a;
    } else {
      assert (a + b)[..|a + b| - 1] == a + b[..|b| - 1];
      RunAppend(cfg, w, a, b[..|b| - 1]);
    }
  }
}
