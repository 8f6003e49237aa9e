/** PIN attempts, the pipe and the engine together: the brain's PIN reader hands each PIN to
    the engine's submit function and replies only when that has returned. */
module PinUnlocks {
  import opened Int64
  import LockEngine
  import LockRuns
  import LockWorth
  import PinReplies

  /** The pipe with both its ends, and every step the engine has made. `served[i]` is the step
      at which the i-th PIN was submitted. */
  datatype World = World(link: PinReplies.World, steps: seq<LockEngine.Step>, served: seq<nat>)

  datatype Move =
    | Link(move: PinReplies.Move)
    | Engine(step: LockEngine.Step)
    | Serve(call: LockEngine.Call)
    | HandlerStores
    | Answers

  const START := World(PinReplies.CONNECTED, [], [])

  function EngineOf(cfg: LockEngine.Config, w: World): LockEngine.Engine {
    LockEngine.Run(cfg, LockEngine.BOOT, w.steps).engine
  }

  /** A step of thread `h`, which here belongs to the PIN reader. */
  predicate OfHandler(step: LockEngine.Step, h: nat) {
    (step.PinAttempt? || step.Write?) && step.t == h
  }

  predicate HandlerRests(cfg: LockEngine.Config, h: nat, w: World) {
    0 < h < |EngineOf(cfg, w).writers| && EngineOf(cfg, w).writers[h].Resting?
  }

  predicate Serves(cfg: LockEngine.Config, h: nat, w: World) {
    HandlerRests(cfg, h, w) && w.link.brain.ReadsPin? && w.link.toBrain != []
  }

  function Apply(cfg: LockEngine.Config, h: nat, w: World, move: Move): World {
    match move
    case Link(m) => if m.BrainDecides? || m.BrainReplies? then w else w.(link := PinReplies.Apply(w.link, m))
    case Engine(step) => if OfHandler(step, h) then w else w.(steps := w.steps + [step])
    case Serve(call) =>
      if Serves(cfg, h, w)
      then
        var pin := w.link.toBrain[0];
        World(PinReplies.Apply(w.link, PinReplies.BrainDecides(LockEngine.Submit(cfg, pin, call).Granted?)),
              w.steps + [LockEngine.PinAttempt(h, pin, call)], w.served + [|w.steps|])
      else w
    case HandlerStores => w.(steps := w.steps + [LockEngine.Write(h)])
    case Answers =>
      if HandlerRests(cfg, h, w) then w.(link := PinReplies.Apply(w.link, PinReplies.BrainReplies)) else w
  }

  function Run(cfg: LockEngine.Config, h: nat, w: World, moves: seq<Move>): World {
    if moves == [] then w else Apply(cfg, h, Run(cfg, h, w, moves[..|moves| - 1]), moves[|moves| - 1])
  }

  // ---------- The pipe by itself ----------

  /** What a move is to the pipe. */
  function LinkMove(cfg: LockEngine.Config, h: nat, w: World, move: Move): seq<PinReplies.Move> {
    match move
    case Link(m) => if m.BrainDecides? || m.BrainReplies? then [] else [m]
    case Engine(_) => []
    case Serve(call) =>
      if Serves(cfg, h, w)
      then [PinReplies.BrainDecides(LockEngine.Submit(cfg, w.link.toBrain[0], call).Granted?)] else []
    case HandlerStores => []
    case Answers => if HandlerRests(cfg, h, w) then [PinReplies.BrainReplies] else []
  }

  function LinkMoves(cfg: LockEngine.Config, h: nat, w: World, moves: seq<Move>): seq<PinReplies.Move> {
    if moves == [] then []
    else
      var init := moves[..|moves| - 1];
      LinkMoves(cfg, h, w, init) + LinkMove(cfg, h, Run(cfg, h, w, init), moves[|moves| - 1])
  }

  lemma {:induction false} LinkRuns(cfg: LockEngine.Config, h: nat, w: World, moves: seq<Move>)
    ensures Run(cfg, h, w, moves).link == PinReplies.Run(w.link, LinkMoves(cfg, h, w, moves))
  {
    if moves != [] {
      var init := moves[..|moves| - 1];
      LinkRuns(cfg, h, w, init);
      MoveIsLinkMove(cfg, h, Run(cfg, h, w, init), moves[|moves| - 1]);
      LinkSteps(w.link, LinkMoves(cfg, h, w, init), LinkMove(cfg, h, Run(cfg, h, w, init), moves[|moves| - 1]));
    }
  }

  lemma MoveIsLinkMove(cfg: LockEngine.Config, h: nat, w: World, move: Move)
    ensures var more := LinkMove(cfg, h, w, move);
            && |more| <= 1
            && Apply(cfg, h, w, move).link == if more == [] then w.link else PinReplies.Apply(w.link, more[0])
  {
  }

  lemma LinkSteps(link: PinReplies.World, moves: seq<PinReplies.Move>, more: seq<PinReplies.Move>)
    requires |more| <= 1
    ensures PinReplies.Run(link, moves + more) ==
              if more == [] then PinReplies.Run(link, moves)
              else PinReplies.Apply(PinReplies.Run(link, moves), more[0])
  {
    if more == [] {
      assert moves + more == moves;
    } else {
      assert (moves + more)[..|moves + more| - 1] == moves;
    }
  }

  // ---------- What the brain has answered ----------

  /** Answer `i` is the submit function's on the i-th PIN, at the step recorded. */
  ghost predicate Submitted(cfg: LockEngine.Config, h: nat, w: World, i: nat)
    requires i < |w.served| && i < |w.link.sent| && i < |w.link.answers|
  {
    && w.served[i] < |w.steps|
    && exists call :: w.steps[w.served[i]] == LockEngine.PinAttempt(h, w.link.sent[i], call)
         && w.link.answers[i] == LockEngine.Submit(cfg, w.link.sent[i], call).Granted?
  }

  /** Step `j` set the handler going to unlock and one of its later stores did unlock. */
  ghost predicate Unlocked(cfg: LockEngine.Config, h: nat, steps: seq<LockEngine.Step>, j: nat) {
    exists k :: j < k < |steps| && UnlockedAt(cfg, h, steps, j, k)
  }

  ghost predicate UnlockedAt(cfg: LockEngine.Config, h: nat, steps: seq<LockEngine.Step>, j: nat, k: nat)
    requires j < k < |steps|
  {
    && steps[k] == LockEngine.Write(h) && LockRuns.SetGoing(cfg, steps[..k], j, h)
    && WriterIs(cfg, h, steps, k, LockEngine.SetsLocked(true))
    && !LockRuns.LockedAfter(cfg, steps, k + 1)
  }

  /** What thread `h` is about after the first `k` steps. */
  predicate WriterIs(cfg: LockEngine.Config, h: nat, steps: seq<LockEngine.Step>, k: nat, writer: LockEngine.Writer)
    requires k <= |steps|
  {
    var s := LockEngine.Run(cfg, LockEngine.BOOT, steps[..k]).engine;
    h < |s.writers| && s.writers[h] == writer
  }

  /** Every PIN granted has unlocked, but the one whose reply is still to be written, which may
      be about to. */
  ghost predicate Carried(cfg: LockEngine.Config, h: nat, w: World, i: nat)
    requires i < |w.served| && i < |w.link.answers| && w.served[i] < |w.steps|
  {
    w.link.answers[i] ==>
      || Unlocked(cfg, h, w.steps, w.served[i])
      || (i == |w.link.answers| - 1 && w.link.brain.Replies? && LockRuns.SetGoing(cfg, w.steps, w.served[i], h))
  }

  ghost predicate Inv(cfg: LockEngine.Config, h: nat, w: World) {
    && PinReplies.Kept(w.link) && w.link.toBrain == w.link.sent[|w.link.answers|..]
    && |w.served| == |w.link.answers|
    && (w.served != [] ==> h > 0)
    && forall i :: 0 <= i < |w.served| ==> Submitted(cfg, h, w, i) && Carried(cfg, h, w, i)
  }

  lemma UnlockedLater(cfg: LockEngine.Config, h: nat, steps: seq<LockEngine.Step>, j: nat, step: LockEngine.Step)
    requires Unlocked(cfg, h, steps, j)
    ensures Unlocked(cfg, h, steps + [step], j)
  {
    var k :| j < k < |steps| && UnlockedAt(cfg, h, steps, j, k);
    var longer := steps + [step];
    assert longer[..k] == steps[..k] && longer[..k + 1] == steps[..k + 1];
    assert UnlockedAt(cfg, h, longer, j, k);
  }

  /** Another thread's step leaves the handler at its work. */
  lemma OthersLeaveHandler(cfg: LockEngine.Config, h: nat, s: LockEngine.Engine, step: LockEngine.Step)
    requires LockRuns.About(s, h) && h > 0 && !OfHandler(step, h)
    ensures LockRuns.About(LockEngine.Apply(cfg, s, step), h)
  {
  }

  lemma UnlocksNow(cfg: LockEngine.Config, h: nat, steps: seq<LockEngine.Step>, j: nat)
    requires j < |steps| && LockRuns.SetGoing(cfg, steps, j, h)
    requires WriterIs(cfg, h, steps, |steps|, LockEngine.SetsLocked(true))
    ensures Unlocked(cfg, h, steps + [LockEngine.Write(h)], j)
  {
    var longer := steps + [LockEngine.Write(h)];
    assert steps[..|steps|] == steps && longer[..|steps|] == steps && longer[..|longer|] == longer;
    assert UnlockedAt(cfg, h, longer, j, |steps|);
  }

  lemma GoingGoesOn(cfg: LockEngine.Config, h: nat, steps: seq<LockEngine.Step>, j: nat, step: LockEngine.Step)
    requires j < |steps| && LockRuns.SetGoing(cfg, steps, j, h) && h > 0
    requires !OfHandler(step, h) || step == LockEngine.Write(h)
    ensures LockRuns.SetGoing(cfg, steps + [step], j, h) || Unlocked(cfg, h, steps + [step], j)
  {
    var s := LockEngine.Run(cfg, LockEngine.BOOT, steps).engine;
    assert steps[..|steps|] == steps && (steps + [step])[..|steps|] == steps;
    assert LockRuns.AboutAfter(cfg, steps, |steps|, h);
    if OfHandler(step, h) && s.writers[h] == LockEngine.SetsLocked(true) {
      UnlocksNow(cfg, h, steps, j);
    } else {
      if !OfHandler(step, h) {
        OthersLeaveHandler(cfg, h, s, step);
      }
      LockRuns.StillGoing(cfg, steps, step, j, h);
    }
  }

  /** An engine step keeps every answer carried. */
  lemma StepCarries(cfg: LockEngine.Config, h: nat, w: World, step: LockEngine.Step)
    requires Inv(cfg, h, w) && (!OfHandler(step, h) || step == LockEngine.Write(h))
    ensures Inv(cfg, h, w.(steps := w.steps + [step]))
  {
    var v := w.(steps := w.steps + [step]);
    forall i | 0 <= i < |w.served| ensures Submitted(cfg, h, v, i) && Carried(cfg, h, v, i) {
      assert Submitted(cfg, h, w, i) && Carried(cfg, h, w, i);
      if w.link.answers[i] {
        if Unlocked(cfg, h, w.steps, w.served[i]) {
          UnlockedLater(cfg, h, w.steps, w.served[i], step);
        } else {
          GoingGoesOn(cfg, h, w.steps, w.served[i], step);
        }
      }
    }
  }

  /** A granted PIN sets the handler going. */
  lemma AttemptSetsGoing(cfg: LockEngine.Config, h: nat, w: World, pin: string, call: LockEngine.Call)
    requires HandlerRests(cfg, h, w) && LockEngine.Submit(cfg, pin, call).Granted?
    ensures LockRuns.SetGoing(cfg, w.steps + [LockEngine.PinAttempt(h, pin, call)], |w.steps|, h)
  {
    var longer := w.steps + [LockEngine.PinAttempt(h, pin, call)];
    assert longer[..|w.steps|] == w.steps && longer[..|longer|] == longer;
  }

  lemma ServeKeeps(cfg: LockEngine.Config, h: nat, w: World, call: LockEngine.Call)
    requires Inv(cfg, h, w) && Serves(cfg, h, w)
    ensures Inv(cfg, h, Apply(cfg, h, w, Serve(call)))
  {
    var v, pin, n := Apply(cfg, h, w, Serve(call)), w.link.toBrain[0], |w.served|;
    PinReplies.KeptByMove(w.link, PinReplies.BrainDecides(LockEngine.Submit(cfg, pin, call).Granted?));
    var step := LockEngine.PinAttempt(h, pin, call);
    forall i | 0 <= i < n ensures Submitted(cfg, h, v, i) && Carried(cfg, h, v, i) {
      assert Submitted(cfg, h, w, i) && Carried(cfg, h, w, i);
      if w.link.answers[i] {
        UnlockedLater(cfg, h, w.steps, w.served[i], step);
      }
    }
    assert v.steps[v.served[n]] == step && v.link.sent[n] == pin;
    assert Submitted(cfg, h, v, n);
    if v.link.answers[n] {
      AttemptSetsGoing(cfg, h, w, pin, call);
    }
    assert Carried(cfg, h, v, n);
  }

  lemma RestingIsNotGoing(cfg: LockEngine.Config, h: nat, w: World, j: nat)
    requires j < |w.steps| && HandlerRests(cfg, h, w)
    ensures !LockRuns.SetGoing(cfg, w.steps, j, h)
  {
    assert w.steps[..|w.steps|] == w.steps;
    assert !LockRuns.AboutAfter(cfg, w.steps, |w.steps|, h);
  }

  /** The reply is written only when the handler rests: what was granted has unlocked. */
  lemma AnswerKeeps(cfg: LockEngine.Config, h: nat, w: World)
    requires Inv(cfg, h, w) && HandlerRests(cfg, h, w)
    ensures Inv(cfg, h, Apply(cfg, h, w, Answers))
  {
    var v := Apply(cfg, h, w, Answers);
    PinReplies.KeptByMove(w.link, PinReplies.BrainReplies);
    forall i | 0 <= i < |w.served| ensures Submitted(cfg, h, v, i) && Carried(cfg, h, v, i) {
      assert Submitted(cfg, h, w, i) && Carried(cfg, h, w, i);
      if w.link.answers[i] && !Unlocked(cfg, h, w.steps, w.served[i]) {
        RestingIsNotGoing(cfg, h, w, w.served[i]);
        assert false;
      }
    }
  }

  /** What an answer was stays so, whatever is sent or read later. */
  lemma AnswersStay(cfg: LockEngine.Config, h: nat, w: World, link: PinReplies.World)
    requires Inv(cfg, h, w)
    requires link.answers == w.link.answers && link.brain == w.link.brain && w.link.sent <= link.sent
    ensures var v := w.(link := link);
            forall i :: 0 <= i < |w.served| ==> Submitted(cfg, h, v, i) && Carried(cfg, h, v, i)
  {
    var v := w.(link := link);
    forall i | 0 <= i < |w.served| ensures Submitted(cfg, h, v, i) && Carried(cfg, h, v, i) {
      assert Submitted(cfg, h, w, i) && Carried(cfg, h, w, i);
      assert link.sent[i] == w.link.sent[i];
    }
  }

  lemma LinkAppends(w: PinReplies.World, m: PinReplies.Move)
    requires PinReplies.Kept(w) && w.toBrain == w.sent[|w.answers|..] && !m.BrainDecides? && !m.BrainReplies?
    ensures var v := PinReplies.Apply(w, m);
            && v.answers == w.answers && v.brain == w.brain && w.sent <= v.sent
            && v.toBrain == v.sent[|v.answers|..]
  {
    if m.Send? && m.k < |w.attempts| && w.attempts[m.k].phase.Installed? {
      var pin := w.attempts[m.k].pin;
      assert (w.sent + [pin])[|w.answers|..] == w.sent[|w.answers|..] + [pin];
    }
  }

  lemma LinkKeeps(cfg: LockEngine.Config, h: nat, w: World, m: PinReplies.Move)
    requires Inv(cfg, h, w) && !m.BrainDecides? && !m.BrainReplies?
    ensures Inv(cfg, h, Apply(cfg, h, w, Link(m)))
  {
    PinReplies.KeptByMove(w.link, m);
    LinkAppends(w.link, m);
    AnswersStay(cfg, h, w, PinReplies.Apply(w.link, m));
  }

  lemma MoveKeeps(cfg: LockEngine.Config, h: nat, w: World, move: Move)
    requires Inv(cfg, h, w)
    ensures Inv(cfg, h, Apply(cfg, h, w, move))
  {
    match move
    case Link(m) =>
      if !m.BrainDecides? && !m.BrainReplies? {
        LinkKeeps(cfg, h, w, m);
      }
    case Engine(step) =>
      if !OfHandler(step, h) {
        StepCarries(cfg, h, w, step);
      }
    case Serve(call) =>
      if Serves(cfg, h, w) {
        ServeKeeps(cfg, h, w, call);
      }
    case HandlerStores => StepCarries(cfg, h, w, LockEngine.Write(h));
    case Answers =>
      if HandlerRests(cfg, h, w) {
        AnswerKeeps(cfg, h, w);
      }
  }

  lemma {:induction false} InvHolds(cfg: LockEngine.Config, h: nat, moves: seq<Move>)
    ensures Inv(cfg, h, Run(cfg, h, START, moves))
  {
    if moves != [] {
      InvHolds(cfg, h, moves[..|moves| - 1]);
      MoveKeeps(cfg, h, Run(cfg, h, START, moves[..|moves| - 1]), moves[|moves| - 1]);
    }
  }

  // ---------- From the verdict back to the engine ----------

  /** The engine after an attempt with `pin` has been installed and `during` has happened. */
  function Attempting(cfg: LockEngine.Config, h: nat, before: seq<Move>, pin: string, during: seq<Move>): World {
    Run(cfg, h, Apply(cfg, h, Run(cfg, h, START, before), Link(PinReplies.Install(pin))), during)
  }

  lemma {:induction false} RunAppend(cfg: LockEngine.Config, h: nat, w: World, a: seq<Move>, b: seq<Move>)
    ensures Run(cfg, h, w, a + b) == Run(cfg, h, Run(cfg, h, w, a), b)
  {
    if b == [] {
      assert a + b == a;
    } else {
      assert (a + b)[..|a + b| - 1] == a + b[..|b| - 1];
      RunAppend(cfg, h, w, a, b[..|b| - 1]);
    }
  }

  lemma AttemptingIsARun(cfg: LockEngine.Config, h: nat, before: seq<Move>, pin: string, during: seq<Move>)
    ensures Attempting(cfg, h, before, pin, during)
         == Run(cfg, h, START, before + [Link(PinReplies.Install(pin))] + during)
  {
    var install := [Link(PinReplies.Install(pin))];
    RunAppend(cfg, h, START, before + install, during);
    assert (before + install)[..|before|] == before;
  }

  /** The pipe's part of it. */
  lemma AttemptingLinks(cfg: LockEngine.Config, h: nat, before: seq<Move>, pin: string, during: seq<Move>)
    ensures Run(cfg, h, START, before).link == PinReplies.Run(PinReplies.CONNECTED, LinkMoves(cfg, h, START, before))
    ensures var w0, links := Run(cfg, h, START, before), LinkMoves(cfg, h, START, before);
            var later := LinkMoves(cfg, h, Apply(cfg, h, w0, Link(PinReplies.Install(pin))), during);
            Attempting(cfg, h, before, pin, during).link == PinReplies.Attempting(links, pin, later)
  {
    LinkRuns(cfg, h, START, before);
    LinkRuns(cfg, h, Apply(cfg, h, Run(cfg, h, START, before), Link(PinReplies.Install(pin))), during);
  }

  /** What is recorded stays recorded. */
  lemma {:induction false} RecordsGrow(cfg: LockEngine.Config, h: nat, w: World, moves: seq<Move>)
    ensures w.steps <= Run(cfg, h, w, moves).steps && w.served <= Run(cfg, h, w, moves).served
    ensures forall i :: |w.served| <= i < |Run(cfg, h, w, moves).served| ==>
              Run(cfg, h, w, moves).served[i] >= |w.steps|
  {
    if moves != [] {
      RecordsGrow(cfg, h, w, moves[..|moves| - 1]);
    }
  }

  /** The server said yes, or its call failed and the PIN is the local one, which is not empty. */
  predicate Accepted(cfg: LockEngine.Config, pin: string, call: LockEngine.Call) {
    (call.Answered? && call.ok) || (call.Failed? && cfg.pin != "" && pin == cfg.pin)
  }

  /** The seconds that brings: what the server said, or the configured minutes. */
  function Allowance(cfg: LockEngine.Config, call: LockEngine.Call): int64 {
    if call.Answered? then call.remaining else Wrap(cfg.graceMin * 60)
  }

  /** In step `j` of the engine, at or after `from`, `pin` was accepted; in step `m` the thread
      this set going stored its seconds and in step `k` it unlocked the screen. */
  ghost predicate GrantedAndUnlocked(cfg: LockEngine.Config, h: nat, steps: seq<LockEngine.Step>,
                                     from: nat, pin: string)
  {
    exists j, m, k, call :: from <= j < m < k < |steps|
      && steps[j] == LockEngine.PinAttempt(h, pin, call) && Accepted(cfg, pin, call)
      && StoresAt(cfg, h, steps, m, Allowance(cfg, call)) && UnlockedAt(cfg, h, steps, j, k)
  }

  ghost predicate StoresAt(cfg: LockEngine.Config, h: nat, steps: seq<LockEngine.Step>, m: nat, seconds: int64)
    requires m < |steps|
  {
    && steps[m] == LockEngine.Write(h)
    && LockEngine.Run(cfg, LockEngine.BOOT, steps[..m + 1]).engine.ctrl.remaining == seconds
  }

  /** A thread set going by a PIN has its seconds to store, or has stored them. */
  ghost predicate SecondsStored(cfg: LockEngine.Config, h: nat, steps: seq<LockEngine.Step>, j: nat, i: nat,
                                seconds: int64)
    requires j < i <= |steps|
  {
    || WriterIs(cfg, h, steps, i, LockEngine.SetsRemaining(LockEngine.Response(seconds, true)))
    || (WriterIs(cfg, h, steps, i, LockEngine.SetsLocked(true))
        && exists m :: j < m < i && StoresAt(cfg, h, steps, m, seconds))
  }

  lemma SecondsStayStored(cfg: LockEngine.Config, h: nat, steps: seq<LockEngine.Step>, j: nat, i: nat, seconds: int64)
    requires j < i < |steps| && SecondsStored(cfg, h, steps, j, i, seconds) && h > 0
    requires LockRuns.About(LockEngine.Run(cfg, LockEngine.BOOT, steps[..i + 1]).engine, h)
    ensures SecondsStored(cfg, h, steps, j, i + 1, seconds)
  {
    assert steps[..i + 1] == steps[..i] + [steps[i]];
    LockRuns.Append(cfg, LockEngine.BOOT, steps[..i], [steps[i]]);
    assert [steps[i]][..0] == [];
    var s := LockEngine.Run(cfg, LockEngine.BOOT, steps[..i]).engine;
    if steps[i] == LockEngine.Write(h) && s.writers[h].SetsRemaining? {
      assert StoresAt(cfg, h, steps, i, seconds);
    }
  }

  lemma {:induction false} SecondsAreStored(cfg: LockEngine.Config, h: nat, steps: seq<LockEngine.Step>, j: nat, i: nat,
                                            seconds: int64)
    requires j < i <= |steps| && h > 0 && SecondsStored(cfg, h, steps, j, j + 1, seconds)
    requires forall k :: j < k <= i ==> LockRuns.AboutAfter(cfg, steps, k, h)
    ensures SecondsStored(cfg, h, steps, j, i, seconds)
  {
    if i > j + 1 {
      SecondsAreStored(cfg, h, steps, j, i - 1, seconds);
      assert LockRuns.AboutAfter(cfg, steps, i, h);
      SecondsStayStored(cfg, h, steps, j, i - 1, seconds);
    }
  }

  lemma GoingIsAbout(cfg: LockEngine.Config, steps: seq<LockEngine.Step>, j: nat, h: nat, i: nat)
    requires j < i <= |steps| && LockRuns.SetGoing(cfg, steps[..i], j, h)
    ensures forall k :: j < k <= i ==> LockRuns.AboutAfter(cfg, steps, k, h)
  {
    forall k | j < k <= i ensures LockRuns.AboutAfter(cfg, steps, k, h) {
      assert steps[..i][..k] == steps[..k];
      assert LockRuns.AboutAfter(cfg, steps[..i], k, h);
    }
  }

  /** Taken up by a resting thread, the PIN leaves it with its seconds to store. */
  lemma SecondsStart(cfg: LockEngine.Config, h: nat, steps: seq<LockEngine.Step>, j: nat,
                     pin: string, call: LockEngine.Call)
    requires j < |steps| && steps[j] == LockEngine.PinAttempt(h, pin, call) && Accepted(cfg, pin, call)
    requires LockRuns.AboutAfter(cfg, steps, j + 1, h)
    requires LockEngine.ArrivalOf(cfg, LockEngine.Run(cfg, LockEngine.BOOT, steps[..j]).engine, steps[j]).Arrives?
    ensures SecondsStored(cfg, h, steps, j, j + 1, Allowance(cfg, call)) && h > 0
  {
    assert steps[..j + 1] == steps[..j] + [steps[j]];
    LockRuns.Append(cfg, LockEngine.BOOT, steps[..j], [steps[j]]);
    assert [steps[j]][..0] == [];
  }

  /** End to end: if an attempt begins with no reply outstanding and no other attempt still to
      send, and returns true, then since it began that very PIN was accepted, by the server or
      after a failed call, and the thread this set going has stored the seconds it brings and
      unlocked the screen. */
  lemma TrueVerdictUnlocked(cfg: LockEngine.Config, h: nat, before: seq<Move>, pin: string, during: seq<Move>)
    requires var link := Run(cfg, h, START, before).link;
             PinReplies.Outstanding(link) == 0 && PinReplies.NoneUnsent(link)
    requires var w0, w := Run(cfg, h, START, before), Attempting(cfg, h, before, pin, during);
             |w0.link.attempts| < |w.link.attempts|
             && w.link.attempts[|w0.link.attempts|].phase == PinReplies.Returned(true)
    ensures var w0, w := Run(cfg, h, START, before), Attempting(cfg, h, before, pin, during);
            GrantedAndUnlocked(cfg, h, w.steps, |w0.steps|, pin)
  {
    var w0, w := Run(cfg, h, START, before), Attempting(cfg, h, before, pin, during);
    var w1 := Apply(cfg, h, w0, Link(PinReplies.Install(pin)));
    var n, links := |w0.link.sent|, LinkMoves(cfg, h, START, before);
    AttemptingLinks(cfg, h, before, pin, during);
    PinReplies.AttemptOwns(links, pin, LinkMoves(cfg, h, w1, during));
    PinReplies.TrueVerdictHolds(links, pin, LinkMoves(cfg, h, w1, during), |w0.link.attempts|);
    InvHolds(cfg, h, before);
    AttemptingIsARun(cfg, h, before, pin, during);
    InvHolds(cfg, h, before + [Link(PinReplies.Install(pin))] + during);
    RecordsGrow(cfg, h, w1, during);
    AnsweredTrueUnlocked(cfg, h, w, n, |w0.steps|);
  }

  /** A true answer that the face has read. */
  lemma AnsweredTrueUnlocked(cfg: LockEngine.Config, h: nat, w: World, n: nat, from: nat)
    requires Inv(cfg, h, w) && n < PinReplies.Read(w.link) && n < |w.link.sent| && w.link.answers[n]
    requires w.served[n] >= from
    ensures GrantedAndUnlocked(cfg, h, w.steps, from, w.link.sent[n])
  {
    assert Submitted(cfg, h, w, n) && Carried(cfg, h, w, n);
    var j := w.served[n];
    assert Unlocked(cfg, h, w.steps, j);
    var k :| j < k < |w.steps| && UnlockedAt(cfg, h, w.steps, j, k);
    var call :| w.steps[j] == LockEngine.PinAttempt(h, w.link.sent[n], call)
                && LockEngine.Submit(cfg, w.link.sent[n], call).Granted?;
    GoingIsAbout(cfg, w.steps, j, h, k);
    assert w.steps[..k][..j] == w.steps[..j];
    SecondsStart(cfg, h, w.steps, j, w.link.sent[n], call);
    SecondsAreStored(cfg, h, w.steps, j, k, Allowance(cfg, call));
    var m :| j < m < k && StoresAt(cfg, h, w.steps, m, Allowance(cfg, call));
  }

  // ---------- An attempt does get through ----------

  function Asking(pin: string, call: LockEngine.Call): seq<Move> {
    [Engine(LockEngine.Spawn), Link(PinReplies.Install(pin)), Link(PinReplies.Send(0)), Serve(call)]
  }

  function Storing(ok: bool): seq<Move> {
    if ok then [HandlerStores, HandlerStores] else []
  }

  const REPLYING: seq<Move> := [Answers, Link(PinReplies.FaceReads)]
  const RETURNING: seq<Move> := [Link(PinReplies.Deliver), Link(PinReplies.Return(0))]

  /** One attempt from its start to its verdict, with the brain's thread 1 serving it. */
  function WholeAttempt(cfg: LockEngine.Config, pin: string, call: LockEngine.Call): seq<Move> {
    Asking(pin, call) + Storing(Accepted(cfg, pin, call)) + REPLYING + RETURNING
  }

  /** A run described world by world. */
  lemma {:induction false} RunThrough(cfg: LockEngine.Config, h: nat, moves: seq<Move>, worlds: seq<World>)
    requires |worlds| == |moves| + 1
    requires forall k :: 0 <= k < |moves| ==> worlds[k + 1] == Apply(cfg, h, worlds[k], moves[k])
    ensures Run(cfg, h, worlds[0], moves) == worlds[|moves|]
  {
    if moves != [] {
      RunThrough(cfg, h, moves[..|moves| - 1], worlds[..|moves|]);
    }
  }

  lemma SpawnRests(cfg: LockEngine.Config)
    ensures var s := LockEngine.Run(cfg, LockEngine.BOOT, [LockEngine.Spawn]).engine;
            s == LockEngine.Engine(LockEngine.START.ctrl, LockEngine.Waiting, [LockEngine.Resting, LockEngine.Resting])
  {
    var t := LockEngine.Advance(cfg, LockEngine.BOOT, LockEngine.Spawn);
    LockRuns.Through(cfg, [LockEngine.Spawn], [LockEngine.BOOT, t]);
  }

  /** The one attempt sent and waiting, with this much of the way to go. */
  function Pending(pin: string, reader: PinReplies.Reader, brain: PinReplies.Brain, toBrain: seq<string>,
                   answers: seq<bool>): PinReplies.World
  {
    PinReplies.World([PinReplies.Attempt(pin, PinReplies.Sent, PinReplies.Empty, 0)], PinReplies.To(0),
                     reader, brain, toBrain, [], [pin], answers)
  }

  /** Up to the brain's decision. */
  lemma AttemptIsServed(cfg: LockEngine.Config, pin: string, call: LockEngine.Call)
    ensures var ok := Accepted(cfg, pin, call);
            Run(cfg, 1, START, Asking(pin, call)) ==
              World(Pending(pin, PinReplies.Reads, PinReplies.Replies(ok), [], [ok]),
                    [LockEngine.Spawn, LockEngine.PinAttempt(1, pin, call)], [1])
  {
    SpawnRests(cfg);
    var w1 := Apply(cfg, 1, START, Engine(LockEngine.Spawn));
    assert w1.steps == [LockEngine.Spawn];
    var w2 := Apply(cfg, 1, w1, Link(PinReplies.Install(pin)));
    var w3 := Apply(cfg, 1, w2, Link(PinReplies.Send(0)));
    assert w3.link == Pending(pin, PinReplies.Reads, PinReplies.ReadsPin, [pin], []);
    RunThrough(cfg, 1, Asking(pin, call), [START, w1, w2, w3, Apply(cfg, 1, w3, Serve(call))]);
  }

  /** The engine when the submit function has returned. */
  lemma ServedEngine(cfg: LockEngine.Config, pin: string, call: LockEngine.Call)
    ensures var ok := Accepted(cfg, pin, call);
            var steps := [LockEngine.Spawn, LockEngine.PinAttempt(1, pin, call)]
                         + if ok then [LockEngine.Write(1), LockEngine.Write(1)] else [];
            LockEngine.Run(cfg, LockEngine.BOOT, steps).engine ==
              LockEngine.Engine(if ok then LockEngine.Controller(false, Allowance(cfg, call), false)
                                else LockEngine.START.ctrl,
                                LockEngine.Waiting, [LockEngine.Resting, LockEngine.Resting])
  {
    if Accepted(cfg, pin, call) {
      LockWorth.PinLands(cfg, pin, call, Allowance(cfg, call));
      assert LockWorth.WholePin(pin, call)
          == [LockEngine.Spawn, LockEngine.PinAttempt(1, pin, call)] + [LockEngine.Write(1), LockEngine.Write(1)];
    } else {
      SpawnRests(cfg);
      var steps := [LockEngine.Spawn, LockEngine.PinAttempt(1, pin, call)];
      assert steps + [] == steps && steps[..1] == [LockEngine.Spawn];
    }
  }

  /** From the brain's decision to the face's reader. */
  lemma ReplyIsRead(cfg: LockEngine.Config, w: World, pin: string, ok: bool)
    requires HandlerRests(cfg, 1, w) && w.link == Pending(pin, PinReplies.Reads, PinReplies.Replies(ok), [], [ok])
    ensures Run(cfg, 1, w, REPLYING)
         == w.(link := Pending(pin, PinReplies.Delivers(ok, 0), PinReplies.ReadsPin, [], [ok]))
  {
    var w1 := Apply(cfg, 1, w, Answers);
    assert w1.link.toFace == [PinReplies.Result(ok)];
    RunThrough(cfg, 1, REPLYING, [w, w1, Apply(cfg, 1, w1, Link(PinReplies.FaceReads))]);
  }

  /** And from there to the verdict. */
  lemma ReplyIsReturned(cfg: LockEngine.Config, w: World, pin: string, ok: bool)
    requires w.link == Pending(pin, PinReplies.Delivers(ok, 0), PinReplies.ReadsPin, [], [ok])
    ensures var v := Run(cfg, 1, w, RETURNING);
            v.steps == w.steps && |v.link.attempts| == 1 && v.link.attempts[0].phase == PinReplies.Returned(ok)
  {
    var w1 := Apply(cfg, 1, w, Link(PinReplies.Deliver));
    RunThrough(cfg, 1, RETURNING, [w, w1, Apply(cfg, 1, w1, Link(PinReplies.Return(0)))]);
  }

  lemma HandlerHasStored(cfg: LockEngine.Config, w: World, ok: bool)
    ensures Run(cfg, 1, w, Storing(ok)) ==
              w.(steps := w.steps + if ok then [LockEngine.Write(1), LockEngine.Write(1)] else [])
  {
    if ok {
      var w1 := Apply(cfg, 1, w, HandlerStores);
      RunThrough(cfg, 1, Storing(ok), [w, w1, Apply(cfg, 1, w1, HandlerStores)]);
      var store := [LockEngine.Write(1)];
      assert w.steps + store + store == w.steps + [LockEngine.Write(1), LockEngine.Write(1)];
    } else {
      assert w.steps + [] == w.steps;
    }
  }

  /** Every PIN gets its verdict: true if it is accepted, with the screen unlocked and its
      seconds in hand, and false with the engine untouched if it is not. */
  lemma AttemptGetsThrough(cfg: LockEngine.Config, pin: string, call: LockEngine.Call)
    ensures var v, ok := Run(cfg, 1, START, WholeAttempt(cfg, pin, call)), Accepted(cfg, pin, call);
            && |v.link.attempts| == 1 && v.link.attempts[0].phase == PinReplies.Returned(ok)
            && EngineOf(cfg, v).ctrl == if ok then LockEngine.Controller(false, Allowance(cfg, call), false)
                                        else LockEngine.START.ctrl
  {
    var ok, asking := Accepted(cfg, pin, call), Asking(pin, call);
    AttemptIsServed(cfg, pin, call);
    HandlerHasStored(cfg, Run(cfg, 1, START, asking), ok);
    RunAppend(cfg, 1, START, asking, Storing(ok));
    ServedEngine(cfg, pin, call);
    ReplyIsRead(cfg, Run(cfg, 1, START, asking + Storing(ok)), pin, ok);
    RunAppend(cfg, 1, START, asking + Storing(ok), REPLYING);
    ReplyIsReturned(cfg, Run(cfg, 1, START, asking + Storing(ok) + REPLYING), pin, ok);
    RunAppend(cfg, 1, START, asking + Storing(ok) + REPLYING, RETURNING);
  }
}
