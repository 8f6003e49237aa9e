/** The brain and one face joined by a pipe: `serveFaceConn` of `service_windows.go`, `run`
    of `face_windows.go` and the messages of `ipc.go`, as atomic steps around the engine. */
module BrainFace {
  import opened Int64
  import opened LockEngine
  import Seqs

  /** What travels from brain to face. */
  datatype Message = State(ctrl: Controller) | PinResult(ok: bool)

  /** A poll reads the three fields one at a time, then writes if the sample is news. */
  datatype Poll =
    | Waits
    | SawLocked(locked: bool)
    | SawRemaining(locked: bool, remaining: int64)
    | Sampled(ctrl: Controller)

  datatype LastPush = First | Pushed(ctrl: Controller)

  /** A live connection. `since` is the instant it was made, `pushed` the states written to
      it and `consumed` those whose lock flag the face has stored. */
  datatype Pipe = NoPipe | Pipe(since: nat, poll: Poll, last: LastPush, toFace: seq<Message>,
                                pushed: seq<Controller>, consumed: seq<Controller>)

  datatype FaceAt =
    | Dialing
    | Reading
    | StoresRemaining(c: Controller)
    | StoresLocked(c: Controller)
    | StoresOnline(c: Controller)
    | Closing
    | StoresFailClosed
    | StoresOffline

  /** `history` holds the brain's controller at every instant, the present one last. */
  datatype World = World(brain: Engine, history: seq<Controller>, pipe: Pipe, at: FaceAt, face: Controller)

  datatype Move =
    | Brain(step: LockEngine.Step)
    | Dial(ok: bool)
    | PollStep
    | Reply(ok: bool)
    | FaceStep
    | ReadFails

  const POWER_ON := World(START, [START.ctrl], NoPipe, Dialing, Controller(true, 0, false))

  function Apply(cfg: Config, w: World, move: Move): World {
    match move
    case Brain(step) =>
      var brain := LockEngine.Apply(cfg, w.brain, step);
      w.(brain := brain, history := w.history + [brain.ctrl])
    case Dial(ok) =>
      if !w.at.Dialing? then w
      else if ok then w.(pipe := Pipe(Max(|w.history| - 1, 0), Waits, First, [], [], []), at := Reading)
      else w.(at := StoresFailClosed)
    case PollStep => if w.pipe.Pipe? then w.(pipe := PollNext(w.pipe, w.brain.ctrl)) else w
    case Reply(ok) => if w.pipe.Pipe? then w.(pipe := w.pipe.(toFace := w.pipe.toFace + [PinResult(ok)])) else w
    case FaceStep => FaceNext(w)
    case ReadFails => if w.at.Reading? then w.(pipe := NoPipe, at := Closing) else w
  }

  function PollNext(p: Pipe, brain: Controller): Pipe
    requires p.Pipe?
  {
    match p.poll
    case Waits => p.(poll := SawLocked(brain.locked))
    case SawLocked(locked) => p.(poll := SawRemaining(locked, brain.remaining))
    case SawRemaining(locked, remaining) => p.(poll := Sampled(Controller(locked, remaining, brain.online)))
    case Sampled(c) =>
      if p.last == Pushed(c) then p.(poll := Waits)
      else p.(poll := Waits, last := Pushed(c), toFace := p.toFace + [State(c)], pushed := p.pushed + [c])
  }

  function FaceNext(w: World): World {
    match w.at
    case Dialing => w
    case Reading =>
      if !w.pipe.Pipe? || w.pipe.toFace == [] then w
      else
        var message, read := w.pipe.toFace[0], w.(pipe := w.pipe.(toFace := w.pipe.toFace[1..]));
        (match message
         case State(c) => read.(at := StoresRemaining(c))
         case PinResult(_) => read)
    case StoresRemaining(c) => w.(face := w.face.(remaining := c.remaining), at := StoresLocked(c))
    case StoresLocked(c) =>
      var stored := w.(face := w.face.(locked := c.locked), at := StoresOnline(c));
      if w.pipe.Pipe? then stored.(pipe := w.pipe.(consumed := w.pipe.consumed + [c])) else stored
    case StoresOnline(c) => w.(face := w.face.(online := c.online), at := Reading)
    case Closing => w.(at := StoresFailClosed)
    case StoresFailClosed => w.(face := w.face.(locked := true), at := StoresOffline)
    case StoresOffline => w.(face := w.face.(online := false), at := Dialing)
  }

  function Run(cfg: Config, w: World, moves: seq<Move>): World {
    if moves == [] then w else Apply(cfg, Run(cfg, w, moves[..|moves| - 1]), moves[|moves| - 1])
  }

  // ---------- Fail closed, end to end ----------

  /** The three fields of `c`, read in order at instants from `since` on. */
  ghost predicate Witnessed(c: Controller, history: seq<Controller>, since: nat) {
    exists i, j, k :: since <= i <= j <= k < |history|
      && history[i].locked == c.locked && history[j].remaining == c.remaining && history[k].online == c.online
  }

  ghost predicate PollWitnessed(p: Poll, history: seq<Controller>, since: nat) {
    match p
    case Waits => true
    case SawLocked(locked) => exists i :: since <= i < |history| && history[i].locked == locked
    case SawRemaining(locked, remaining) =>
      exists i, j :: since <= i <= j < |history| && history[i].locked == locked && history[j].remaining == remaining
    case Sampled(c) => Witnessed(c, history, since)
  }

  predicate Connected(w: World) {
    w.at.Reading? || w.at.StoresRemaining? || w.at.StoresLocked? || w.at.StoresOnline?
  }

  /** The states the face still has to store, oldest first. */
  function Underway(w: World): seq<Controller> {
    if w.at.StoresRemaining? || w.at.StoresLocked? then [w.at.c] else []
  }

  function States(messages: seq<Message>): seq<Controller> {
    if messages == [] then []
    else States(messages[..|messages| - 1]) +
         match messages[|messages| - 1]
         case State(c) => [c]
         case PinResult(_) => []
  }

  lemma {:induction false} StatesFront(messages: seq<Message>)
    requires messages != []
    ensures States(messages) == (if messages[0].State? then [messages[0].ctrl] else []) + States(messages[1..])
  {
    var last := |messages| - 1;
    if last > 0 {
      StatesFront(messages[..last]);
      assert messages[..last][1..] == messages[1..][..last - 1];
    }
  }

  /** Every state pushed or being sampled was read from the brain since connecting. */
  ghost predicate Honest(w: World) {
    && w.history != [] && w.history[|w.history| - 1] == w.brain.ctrl
    && (w.pipe.Pipe? ==>
         && w.pipe.since < |w.history|
         && PollWitnessed(w.pipe.poll, w.history, w.pipe.since)
         && (forall i :: 0 <= i < |w.pipe.pushed| ==> Witnessed(w.pipe.pushed[i], w.history, w.pipe.since)))
  }

  /** What was pushed is what was consumed, is underway or is still in the pipe, in order. */
  ghost predicate InOrder(w: World) {
    && (Connected(w) <==> w.pipe.Pipe?)
    && (w.pipe.Pipe? ==>
         && w.pipe.pushed == w.pipe.consumed + (Underway(w) + States(w.pipe.toFace))
         && w.pipe.last == Latest(w.pipe.pushed))
  }

  function Latest(cs: seq<Controller>): LastPush {
    if cs == [] then First else Pushed(cs[|cs| - 1])
  }

  /** The face shows the last state consumed, and is locked without one. */
  ghost predicate Mirrors(w: World) {
    && (w.at.Dialing? || w.at.StoresOffline? ==> w.face.locked)
    && (w.pipe.Pipe? ==>
         match Latest(w.pipe.consumed)
         case First => w.face.locked && !w.at.StoresOnline?
         case Pushed(c) =>
           && w.face.locked == c.locked
           && (w.at.Reading? ==> w.face == c)
           && (w.at.StoresOnline? ==> w.at.c == c && w.face.remaining == c.remaining))
    && (w.at.StoresLocked? ==> w.face.remaining == w.at.c.remaining)
  }

  ghost predicate Inv(w: World) {
    Honest(w) && InOrder(w) && Mirrors(w)
  }

  lemma WitnessedLater(c: Controller, history: seq<Controller>, more: Controller, since: nat)
    requires Witnessed(c, history, since)
    ensures Witnessed(c, history + [more], since)
  {
    var i, j, k :| since <= i <= j <= k < |history|
      && history[i].locked == c.locked && history[j].remaining == c.remaining && history[k].online == c.online;
    var longer := history + [more];
    assert longer[i].locked == c.locked && longer[j].remaining == c.remaining && longer[k].online == c.online;
  }

  lemma PollWitnessedLater(p: Poll, history: seq<Controller>, more: Controller, since: nat)
    requires PollWitnessed(p, history, since)
    ensures PollWitnessed(p, history + [more], since)
  {
    var longer := history + [more];
    match p
    case Waits =>
    case SawLocked(locked) =>
      var i :| since <= i < |history| && history[i].locked == locked;
      assert longer[i].locked == locked;
    case SawRemaining(locked, remaining) =>
      var i, j :| since <= i <= j < |history| && history[i].locked == locked && history[j].remaining == remaining;
      assert longer[i].locked == locked && longer[j].remaining == remaining;
    case Sampled(c) => WitnessedLater(c, history, more, since);
  }

  lemma StaysHonest(cfg: Config, w: World, move: Move)
    requires Honest(w)
    ensures Honest(Apply(cfg, w, move))
  {
    if move.Brain? && w.pipe.Pipe? {
      var now := LockEngine.Apply(cfg, w.brain, move.step).ctrl;
      PollWitnessedLater(w.pipe.poll, w.history, now, w.pipe.since);
      forall i | 0 <= i < |w.pipe.pushed| ensures Witnessed(w.pipe.pushed[i], w.history + [now], w.pipe.since) {
        WitnessedLater(w.pipe.pushed[i], w.history, now, w.pipe.since);
      }
    }
  }

  lemma PollStaysInOrder(p: Pipe, brain: Controller, underway: seq<Controller>)
    requires p.Pipe? && p.pushed == p.consumed + (underway + States(p.toFace)) && p.last == Latest(p.pushed)
    ensures var q := PollNext(p, brain);
            q.Pipe? && q.pushed == q.consumed + (underway + States(q.toFace)) && q.last == Latest(q.pushed)
  {
    if p.poll.Sampled? && p.last != Pushed(p.poll.ctrl) {
      StatesSnoc(p.toFace, State(p.poll.ctrl));
      Seqs.Snoc(p.consumed, underway, States(p.toFace), p.poll.ctrl);
    }
  }

  lemma FaceStaysInOrder(cfg: Config, w: World)
    requires InOrder(w)
    ensures InOrder(Apply(cfg, w, FaceStep))
  {
    if w.at.Reading? {
      ReadingStaysInOrder(cfg, w);
    } else if w.at.StoresLocked? && w.pipe.Pipe? {
      var s := States(w.pipe.toFace);
      assert w.pipe.consumed + ([w.at.c] + s) == (w.pipe.consumed + [w.at.c]) + ([] + s);
    }
  }

  lemma ReadingStaysInOrder(cfg: Config, w: World)
    requires InOrder(w) && w.at.Reading?
    ensures InOrder(Apply(cfg, w, FaceStep))
  {
    if w.pipe.toFace != [] {
      StatesFront(w.pipe.toFace);
      var rest := States(w.pipe.toFace[1..]);
      assert [] + rest == rest;
    }
  }

  lemma ReplyStaysInOrder(cfg: Config, w: World, ok: bool)
    requires InOrder(w)
    ensures InOrder(Apply(cfg, w, Reply(ok)))
  {
    if w.pipe.Pipe? {
      StatesSnoc(w.pipe.toFace, PinResult(ok));
      assert States(w.pipe.toFace) + [] == States(w.pipe.toFace);
    }
  }

  lemma OthersStayInOrder(cfg: Config, w: World, move: Move)
    requires InOrder(w) && (move.Brain? || move.Dial? || move.ReadFails?)
    ensures InOrder(Apply(cfg, w, move))
  {
  }

  lemma StaysInOrder(cfg: Config, w: World, move: Move)
    requires InOrder(w)
    ensures InOrder(Apply(cfg, w, move))
  {
    match move
    case PollStep => PollKeepsOrder(cfg, w);
    case FaceStep => FaceStaysInOrder(cfg, w);
    case Reply(ok) => ReplyStaysInOrder(cfg, w, ok);
    case _ => OthersStayInOrder(cfg, w, move);
  }

  lemma PollKeepsOrder(cfg: Config, w: World)
    requires InOrder(w)
    ensures InOrder(Apply(cfg, w, PollStep))
  {
    if w.pipe.Pipe? {
      PollStaysInOrder(w.pipe, w.brain.ctrl, Underway(w));
    }
  }

  lemma StatesSnoc(messages: seq<Message>, m: Message)
    ensures States(messages + [m]) == States(messages) + (if m.State? then [m.ctrl] else [])
  {
    assert (messages + [m])[..|messages|] == messages;
  }

  lemma StaysMirror(cfg: Config, w: World, move: Move)
    requires InOrder(w) && Mirrors(w)
    ensures Mirrors(Apply(cfg, w, move))
  {
  }

  lemma {:induction false} InvHolds(cfg: Config, moves: seq<Move>)
    ensures Inv(Run(cfg, POWER_ON, moves))
  {
    if moves != [] {
      InvHolds(cfg, moves[..|moves| - 1]);
      var w, move := Run(cfg, POWER_ON, moves[..|moves| - 1]), moves[|moves| - 1];
      StaysHonest(cfg, w, move);
      StaysInOrder(cfg, w, move);
      StaysMirror(cfg, w, move);
    }
  }
}
