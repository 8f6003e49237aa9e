/** The lock engine of `cmd/agent/main.go` and `controller.go` as interleaved atomic steps:
    one heartbeat thread, one countdown thread and any number of PIN handlers, each load
    and store of the controller a step of its own. */
module LockEngine {
  import opened Int64

  /** The atomic fields of `LockController`. */
  datatype Controller = Controller(locked: bool, remaining: int64, online: bool)

  /** What a successful beat or an accepted unlock tells the engine. */
  datatype Response = Response(remaining: int64, allowed: bool)

  /** The stores a heartbeat or PIN thread still has to make. */
  datatype Writer = Resting | SetsOnline(r: Response) | SetsRemaining(r: Response) | SetsLocked(allowed: bool)

  /** Where the countdown is: waiting for the ticker, past the locked check, with the new
      value computed, or about to lock. */
  datatype Countdown = Waiting | Passed | Computed(next: int64, lock: bool) | Locking

  /** Thread 0 is the heartbeat loop; every other thread handles PINs. */
  datatype Engine = Engine(ctrl: Controller, countdown: Countdown, writers: seq<Writer>)

  datatype Config = Config(pin: string, graceMin: int)

  /** How the server's unlock call ended; any status but 200 is a failure. */
  datatype Call = Failed | Answered(ok: bool, remaining: int64)

  datatype Step =
    | BeatAnswered(r: Response)
    | BeatFailed
    | Spawn
    | PinAttempt(t: nat, pin: string, call: Call)
    | Write(t: nat)
    | Check
    | Load
    | StoreTick
    | StoreLock

  const START := Engine(Controller(true, 0, false), Waiting, [Resting])

  /** One second of the local clock: the new value, and whether to lock. */
  function TickCountdown(rem: int64): (int64, bool) {
    var rem := Wrap(rem - 1);
    if rem <= 0 then (0, true) else (rem, false)
  }

  datatype Verdict = Rejected | Granted(remaining: int64)

  /** The submit function: the server's word if the call succeeded, else the local PIN. */
  function Submit(cfg: Config, pin: string, call: Call): Verdict {
    match call
    case Answered(ok, remaining) => if ok then Granted(remaining) else Rejected
    case Failed => if cfg.pin != "" && pin == cfg.pin then Granted(Wrap(cfg.graceMin * 60)) else Rejected
  }

  /** The response a step brings in, if any, and the thread that will act on it. */
  datatype Arrival = Nothing | Arrives(t: nat, r: Response)

  function ArrivalOf(cfg: Config, s: Engine, step: Step): Arrival {
    match step
    case BeatAnswered(r) =>
      if |s.writers| > 0 && s.writers[0].Resting? then Arrives(0, r) else Nothing
    case PinAttempt(t, pin, call) =>
      if 0 < t < |s.writers| && s.writers[t].Resting? && Submit(cfg, pin, call).Granted?
      then Arrives(t, Response(Submit(cfg, pin, call).remaining, true)) else Nothing
    case _ => Nothing
  }

  /** One atomic step; a step whose thread is not there to take it changes nothing. */
  function Apply(cfg: Config, s: Engine, step: Step): Engine {
    match step
    case BeatAnswered(r) =>
      if |s.writers| > 0 && s.writers[0].Resting? then s.(writers := s.writers[0 := SetsOnline(r)]) else s
    case BeatFailed =>
      if |s.writers| > 0 && s.writers[0].Resting? then s.(ctrl := s.ctrl.(online := false)) else s
    case Spawn => s.(writers := s.writers + [Resting])
    case PinAttempt(t, pin, call) =>
      if 0 < t < |s.writers| && s.writers[t].Resting? && Submit(cfg, pin, call).Granted?
      then s.(writers := s.writers[t := SetsRemaining(Response(Submit(cfg, pin, call).remaining, true))]) else s
    case Write(t) => if t < |s.writers| then WriteStep(s, t) else s
    case Check => if s.countdown.Waiting? && !s.ctrl.locked then s.(countdown := Passed) else s
    case Load =>
      if s.countdown.Passed?
      then var (next, lock) := TickCountdown(s.ctrl.remaining); s.(countdown := Computed(next, lock)) else s
    case StoreTick =>
      if s.countdown.Computed?
      then s.(ctrl := s.ctrl.(remaining := s.countdown.next),
              countdown := if s.countdown.lock then Locking else Waiting) else s
    case StoreLock =>
      if s.countdown.Locking? then s.(ctrl := s.ctrl.(locked := true), countdown := Waiting) else s
  }

  function WriteStep(s: Engine, t: nat): Engine
    requires t < |s.writers|
  {
    match s.writers[t]
    case Resting => s
    case SetsOnline(r) => s.(ctrl := s.ctrl.(online := true), writers := s.writers[t := SetsRemaining(r)])
    case SetsRemaining(r) =>
      s.(ctrl := s.ctrl.(remaining := r.remaining), writers := s.writers[t := SetsLocked(r.allowed)])
    case SetsLocked(allowed) => s.(ctrl := s.ctrl.(locked := !allowed), writers := s.writers[t := Resting])
  }

  /** The countdown passes its locked check: one more second of play. */
  predicate Plays(s: Engine, step: Step) {
    step.Check? && s.countdown.Waiting? && !s.ctrl.locked
  }

  /** The seconds a response can be worth: the value it writes, the last second of which
      is paid by its unlock. */
  function Worth(r: Response): nat {
    Max(r.remaining - 1, 0) + (if r.allowed then 1 else 0)
  }

  /** A run so far: where the engine is, the seconds played, the responses that arrived and
      what they were worth. */
  datatype Tally = Tally(engine: Engine, played: nat, budget: nat, responses: set<Response>)

  const BOOT := Tally(START, 0, 0, {})

  function Advance(cfg: Config, t: Tally, step: Step): Tally {
    var arrival := ArrivalOf(cfg, t.engine, step);
    Tally(Apply(cfg, t.engine, step),
          t.played + (if Plays(t.engine, step) then 1 else 0),
          t.budget + (if arrival.Arrives? then Worth(arrival.r) else 0),
          t.responses + (if arrival.Arrives? then {arrival.r} else {}))
  }

  function Run(cfg: Config, t: Tally, steps: seq<Step>): Tally {
    if steps == [] then t else Advance(cfg, Run(cfg, t, steps[..|steps| - 1]), steps[|steps| - 1])
  }

  // ---------- The bound ----------

  function Owed(w: Writer): nat {
    match w
    case Resting => 0
    case SetsOnline(r) => Worth(r)
    case SetsRemaining(r) => Worth(r)
    case SetsLocked(allowed) => if allowed then 1 else 0
  }

  function OwedAll(ws: seq<Writer>): nat {
    if ws == [] then 0 else OwedAll(ws[..|ws| - 1]) + Owed(ws[|ws| - 1])
  }

  lemma {:induction false} OwedAfterUpdate(ws: seq<Writer>, t: nat, w: Writer)
    requires t < |ws|
    ensures OwedAll(ws[t := w]) == OwedAll(ws) - Owed(ws[t]) + Owed(w)
  {
    var last := |ws| - 1;
    if t < last {
      OwedAfterUpdate(ws[..last], t, w);
      assert ws[t := w][..last] == ws[..last][t := w];
    } else {
      assert ws[t := w][..last] == ws[..last];
    }
  }

  /** The value the countdown will find, or is about to write over whatever is there. */
  function Effective(s: Engine): int64 {
    if s.countdown.Computed? then s.countdown.next else s.ctrl.remaining
  }

  /** An unlock not yet spent by a check that will lock. */
  function Unspent(s: Engine): nat {
    if !s.ctrl.locked && (s.countdown.Waiting? || (s.countdown.Computed? && !s.countdown.lock)) then 1 else 0
  }

  /** The seconds of play the state can still give without another response. */
  function Potential(s: Engine): nat {
    Max(Effective(s) - 1, 0) + Unspent(s) + OwedAll(s.writers)
  }

  /** No value written or about to be is the least integer, which would wrap. */
  predicate NoLeast(s: Engine) {
    && s.ctrl.remaining != MIN
    && (s.countdown.Computed? ==> s.countdown.next >= 0 && (s.countdown.lock ==> s.countdown.next == 0))
    && forall t :: 0 <= t < |s.writers| ==>
         (s.writers[t].SetsOnline? || s.writers[t].SetsRemaining?) ==> s.writers[t].r.remaining != MIN
  }

  ghost predicate Spends(cfg: Config, s: Engine, step: Step) {
    var arrival := ArrivalOf(cfg, s, step);
    (if Plays(s, step) then 1 else 0) + Potential(Apply(cfg, s, step))
      <= Potential(s) + (if arrival.Arrives? then Worth(arrival.r) else 0)
  }

  lemma WriteSpends(cfg: Config, s: Engine, t: nat)
    requires NoLeast(s) && t < |s.writers|
    ensures NoLeast(Apply(cfg, s, Write(t))) && Spends(cfg, s, Write(t))
  {
    OwedAfterUpdate(s.writers, t, WriteStep(s, t).writers[t]);
    assert WriteStep(s, t).writers == s.writers[t := WriteStep(s, t).writers[t]];
  }

  lemma ArrivalSpends(cfg: Config, s: Engine, step: Step)
    requires NoLeast(s) && ArrivalOf(cfg, s, step).Arrives? && ArrivalOf(cfg, s, step).r.remaining != MIN
    ensures NoLeast(Apply(cfg, s, step)) && Spends(cfg, s, step)
  {
    var t, r := ArrivalOf(cfg, s, step).t, ArrivalOf(cfg, s, step).r;
    OwedAfterUpdate(s.writers, t, if step.BeatAnswered? then SetsOnline(r) else SetsRemaining(r));
  }

  /** No step creates potential but the arrival of a response, and a second of play uses
      one up, even when stores are lost between a load and a store. */
  lemma StepSpends(cfg: Config, s: Engine, step: Step)
    requires NoLeast(s)
    requires ArrivalOf(cfg, s, step).Arrives? ==> ArrivalOf(cfg, s, step).r.remaining != MIN
    ensures NoLeast(Apply(cfg, s, step)) && Spends(cfg, s, step)
  {
    if ArrivalOf(cfg, s, step).Arrives? {
      ArrivalSpends(cfg, s, step);
    } else if step.Write? && step.t < |s.writers| {
      WriteSpends(cfg, s, step.t);
    } else if step.Spawn? {
      assert (s.writers + [Resting])[..|s.writers|] == s.writers;
    }
  }

  /** Play under every interleaving: what has been played and what can still be played
      together grow by no more than the responses are worth. */
  lemma {:induction false} PlayIsBounded(cfg: Config, t: Tally, steps: seq<Step>)
    requires NoLeast(t.engine)
    requires forall r :: r in Run(cfg, t, steps).responses ==> r.remaining != MIN
    ensures NoLeast(Run(cfg, t, steps).engine)
    ensures var end := Run(cfg, t, steps);
            end.played + Potential(end.engine) - end.budget <= t.played + Potential(t.engine) - t.budget
  {
    if steps != [] {
      var init := steps[..|steps| - 1];
      PlayIsBounded(cfg, t, init);
      StepSpends(cfg, Run(cfg, t, init).engine, steps[|steps| - 1]);
    }
  }
}
