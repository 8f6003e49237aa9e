/** That the pipe gets somewhere: the face drains it, then shows what the brain holds, and
    fails closed when it is gone. */
module FaceProgress {
  import opened Int64
  import opened LockEngine
  import opened BrainFace
  import FaceRuns

  /** `n` times the same move. */
  function Repeat(move: Move, n: nat): seq<Move> {
    if n == 0 then [] else Repeat(move, n - 1) + [move]
  }

  /** Steps the face needs to store the states in its queue and come back to reading. */
  function ToDrain(w: World): nat
    requires w.pipe.Pipe?
  {
    4 * |w.pipe.toFace| +
    match w.at
    case StoresRemaining(_) => 3
    case StoresLocked(_) => 2
    case StoresOnline(_) => 1
    case _ => 0
  }

  /** Each step of a connected face is one step nearer, and touches only the face's side. */
  lemma FaceStepDrains(w: World)
    requires w.pipe.Pipe? && Connected(w)
    ensures var v := FaceNext(w);
            && v.pipe.Pipe? && Connected(v) && v.brain == w.brain && v.history == w.history
            && v.pipe.poll == w.pipe.poll && v.pipe.last == w.pipe.last
            && (ToDrain(w) > 0 ==> ToDrain(v) < ToDrain(w)) && (ToDrain(w) == 0 ==> v == w)
  {
  }

  lemma {:induction false} Drains(cfg: Config, w: World, n: nat)
    requires w.pipe.Pipe? && Connected(w)
    ensures var v := BrainFace.Run(cfg, w, Repeat(FaceStep, n));
            && v.pipe.Pipe? && Connected(v) && v.brain == w.brain && v.history == w.history
            && ToDrain(v) + n <= Max(ToDrain(w), n)
  {
    if n > 0 {
      Drains(cfg, w, n - 1);
      FaceStepDrains(BrainFace.Run(cfg, w, Repeat(FaceStep, n - 1)));
    }
  }

  /** Polling and the face's own steps leave a connection up and the brain alone. */
  lemma {:induction false} QuietMoves(cfg: Config, w: World, moves: seq<Move>)
    requires w.pipe.Pipe? && Connected(w)
    requires forall i :: 0 <= i < |moves| ==> moves[i].PollStep? || moves[i].FaceStep?
    ensures var v := BrainFace.Run(cfg, w, moves);
            FaceRuns.Steady(cfg, w, moves) && v.pipe.Pipe? && Connected(v) && v.brain == w.brain
  {
    if moves != [] {
      QuietMoves(cfg, w, moves[..|moves| - 1]);
      var u := BrainFace.Run(cfg, w, moves[..|moves| - 1]);
      if moves[|moves| - 1].FaceStep? {
        FaceStepDrains(u);
      }
    }
  }

  lemma {:induction false} CountPolls(n: nat, m: nat)
    ensures FaceRuns.Polls(Repeat(PollStep, n) + Repeat(FaceStep, m)) == n
    ensures forall i :: 0 <= i < |Repeat(PollStep, n) + Repeat(FaceStep, m)| ==>
              var move := (Repeat(PollStep, n) + Repeat(FaceStep, m))[i]; move.PollStep? || move.FaceStep?
    decreases n + m
  {
    if m > 0 {
      CountPolls(n, m - 1);
      var all, fewer := Repeat(PollStep, n) + Repeat(FaceStep, m), Repeat(PollStep, n) + Repeat(FaceStep, m - 1);
      assert all == fewer + [FaceStep] && all[..|all| - 1] == fewer;
    } else if n > 0 {
      CountPolls(n - 1, 0);
      assert Repeat(PollStep, n) + [] == Repeat(PollStep, n) && Repeat(PollStep, n - 1) + [] == Repeat(PollStep, n - 1);
      assert Repeat(PollStep, n)[..|Repeat(PollStep, n)| - 1] == Repeat(PollStep, n - 1);
    }
  }

  /** The catching up of a connected face: a poll's seven steps and as many of its own as it
      has states to store. */
  function CatchUp(cfg: Config, w: World): seq<Move>
    requires BrainFace.Run(cfg, w, Repeat(PollStep, 7)).pipe.Pipe?
  {
    Repeat(PollStep, 7) + Repeat(FaceStep, ToDrain(BrainFace.Run(cfg, w, Repeat(PollStep, 7))))
  }

  lemma PollsKeepPipe(cfg: Config, w: World)
    requires w.pipe.Pipe? && Connected(w)
    ensures BrainFace.Run(cfg, w, Repeat(PollStep, 7)).pipe.Pipe?
    ensures Connected(BrainFace.Run(cfg, w, Repeat(PollStep, 7)))
  {
    CountPolls(7, 0);
    assert Repeat(PollStep, 7) + [] == Repeat(PollStep, 7);
    QuietMoves(cfg, w, Repeat(PollStep, 7));
  }

  lemma NothingToDrain(w: World)
    requires w.pipe.Pipe? && Connected(w) && ToDrain(w) == 0
    ensures w.at.Reading? && States(w.pipe.toFace) == []
  {
  }

  /** Any connected face, left alone with a brain that stands still, comes to show it. */
  lemma FaceCatchesUp(cfg: Config, before: seq<Move>)
    requires BrainFace.Run(cfg, POWER_ON, before).pipe.Pipe?
    ensures var w := BrainFace.Run(cfg, POWER_ON, before);
            && BrainFace.Run(cfg, w, Repeat(PollStep, 7)).pipe.Pipe?
            && BrainFace.Run(cfg, w, CatchUp(cfg, w)).face == w.brain.ctrl
  {
    var w := BrainFace.Run(cfg, POWER_ON, before);
    InvHolds(cfg, before);
    PollsKeepPipe(cfg, w);
    var polls := Repeat(PollStep, 7);
    var u := BrainFace.Run(cfg, w, polls);
    var n := ToDrain(u);
    var moves := polls + Repeat(FaceStep, n);
    CountPolls(7, n);
    QuietMoves(cfg, w, moves);
    FaceRuns.RunAppend(cfg, w, polls, Repeat(FaceStep, n));
    Drains(cfg, u, n);
    FaceRuns.RunAppend(cfg, POWER_ON, before, moves);
    NothingToDrain(BrainFace.Run(cfg, w, moves));
    FaceRuns.MirrorConverges(cfg, before, moves);
  }

  /** A lost pipe, and a brain that cannot be dialled, leave the face locked and offline, the
      seconds shown as they were. */
  lemma LostPipeFailsClosed(cfg: Config, w: World)
    ensures w.at.Reading? ==>
              var v := BrainFace.Run(cfg, w, [ReadFails, FaceStep, FaceStep, FaceStep]);
              v == w.(pipe := NoPipe, at := Dialing, face := Controller(true, w.face.remaining, false))
    ensures w.at.Dialing? ==>
              var v := BrainFace.Run(cfg, w, [Dial(false), FaceStep, FaceStep]);
              v == w.(at := Dialing, face := Controller(true, w.face.remaining, false))
  {
    if w.at.Reading? {
      var w1 := BrainFace.Apply(cfg, w, ReadFails);
      var w2 := BrainFace.Apply(cfg, w1, FaceStep);
      var w3 := BrainFace.Apply(cfg, w2, FaceStep);
      RunThrough(cfg, [ReadFails, FaceStep, FaceStep, FaceStep], [w, w1, w2, w3, BrainFace.Apply(cfg, w3, FaceStep)]);
    } else if w.at.Dialing? {
      var w1 := BrainFace.Apply(cfg, w, Dial(false));
      var w2 := BrainFace.Apply(cfg, w1, FaceStep);
      RunThrough(cfg, [Dial(false), FaceStep, FaceStep], [w, w1, w2, BrainFace.Apply(cfg, w2, FaceStep)]);
    }
  }

  /** A dial that succeeds connects: a fresh pipe on which nothing has been pushed, so that
      the next poll pushes whatever it samples. */
  lemma DialConnects(cfg: Config, w: World)
    requires w.at.Dialing? && w.history != []
    ensures var v := BrainFace.Apply(cfg, w, Dial(true));
            && v.at.Reading? && v.face == w.face && v.brain == w.brain
            && v.pipe.Pipe? && v.pipe.last == First && v.pipe.poll == Waits
            && v.pipe.toFace == [] && v.pipe.pushed == []
  {
  }

  /** A run described world by world. */
  lemma {:induction false} RunThrough(cfg: Config, moves: seq<Move>, worlds: seq<World>)
    requires |worlds| == |moves| + 1
    requires forall k :: 0 <= k < |moves| ==> worlds[k + 1] == BrainFace.Apply(cfg, worlds[k], moves[k])
    ensures BrainFace.Run(cfg, worlds[0], moves) == worlds[|moves|]
  {
    if moves != [] {
      RunThrough(cfg, moves[..|moves| - 1], worlds[..|moves|]);
    }
  }

  // ---------- Only news is pushed ----------

  ghost predicate NoRepeats(p: Pipe) {
    p.Pipe? ==> forall i :: 0 <= i < |p.pushed| - 1 ==> p.pushed[i] != p.pushed[i + 1]
  }

  lemma NoRepeatsKept(cfg: Config, w: World, move: Move)
    requires InOrder(w) && NoRepeats(w.pipe)
    ensures NoRepeats(BrainFace.Apply(cfg, w, move).pipe)
  {
  }

  /** No state is pushed twice in a row. */
  lemma {:induction false} PushesAreNews(cfg: Config, moves: seq<Move>)
    ensures NoRepeats(BrainFace.Run(cfg, POWER_ON, moves).pipe)
  {
    if moves != [] {
      PushesAreNews(cfg, moves[..|moves| - 1]);
      InvHolds(cfg, moves[..|moves| - 1]);
      NoRepeatsKept(cfg, BrainFace.Run(cfg, POWER_ON, moves[..|moves| - 1]), moves[|moves| - 1]);
    }
  }

  /** A reply to a PIN goes through the same queue, behind what was pushed before it. */
  lemma RepliesQueueBehindStates(cfg: Config, w: World, ok: bool)
    requires w.pipe.Pipe?
    ensures var v := BrainFace.Apply(cfg, w, Reply(ok));
            v.pipe.Pipe? && v.pipe.toFace == w.pipe.toFace + [PinResult(ok)] && v.face == w.face && v.brain == w.brain
  {
  }

  /** A sample has each field as it was when that field was read: if the brain moves in
      between, the three may never have been held together. */
  lemma SampleIsReadFieldByField(p: Pipe, first: Controller, second: Controller, third: Controller)
    requires p.Pipe? && p.poll.Waits?
    ensures PollNext(PollNext(PollNext(p, first), second), third)
         == p.(poll := Sampled(Controller(first.locked, second.remaining, third.online)))
  {
  }
}
