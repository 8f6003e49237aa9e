/** What every response and every granted PIN is worth, to the second. */
module LockWorth {
  import opened Int64
  import opened LockEngine
  import opened LockRuns

  /** A PIN handled from the call to the last store, with nothing in between. */
  function WholePin(pin: string, call: Call): seq<Step> {
    [Spawn, PinAttempt(1, pin, call), Write(1), Write(1)]
  }

  lemma PinLands(cfg: Config, pin: string, call: Call, n: int64)
    requires Submit(cfg, pin, call) == Granted(n)
    ensures Run(cfg, BOOT, WholePin(pin, call)) ==
              Tally(Engine(Controller(false, n, false), Waiting, [Resting, Resting]), 0, Worth(Response(n, true)),
                    {Response(n, true)})
  {
    var t1 := Advance(cfg, BOOT, Spawn);
    var t2 := Advance(cfg, t1, PinAttempt(1, pin, call));
    var t3 := Advance(cfg, t2, Write(1));
    Through(cfg, WholePin(pin, call), [BOOT, t1, t2, t3, Advance(cfg, t3, Write(1))]);
  }

  /** Counted down to its end, with the lock stored. */
  function Spent(n: nat): seq<Step> {
    Ticks(n) + [StoreLock]
  }

  lemma LastTick(cfg: Config, t: Tally)
    requires t.engine.countdown.Waiting? && !t.engine.ctrl.locked && t.engine.ctrl.remaining == 1
    ensures Run(cfg, t, TICK + [StoreLock]) ==
              Tally(Engine(Controller(true, 0, t.engine.ctrl.online), Waiting, t.engine.writers),
                    t.played + 1, t.budget, t.responses)
  {
    var t1 := Advance(cfg, t, Check);
    var t2 := Advance(cfg, t1, Load);
    var t3 := Advance(cfg, t2, StoreTick);
    Through(cfg, TICK + [StoreLock], [t, t1, t2, t3, Advance(cfg, t3, StoreLock)]);
  }

  /** An unlocked engine left alone plays all it has, to the second, and then locks. */
  lemma SpentLocks(cfg: Config, t: Tally)
    requires t.engine.countdown.Waiting? && !t.engine.ctrl.locked && t.engine.ctrl.remaining >= 1
    ensures var n := t.engine.ctrl.remaining;
            Run(cfg, t, Spent(n)) ==
              Tally(Engine(Controller(true, 0, t.engine.ctrl.online), Waiting, t.engine.writers),
                    t.played + n, t.budget, t.responses)
  {
    var n := t.engine.ctrl.remaining;
    TicksSplit(n - 1);
    assert Spent(n) == Ticks(n - 1) + (TICK + [StoreLock]);
    Append(cfg, t, Ticks(n - 1), TICK + [StoreLock]);
    TicksPlay(cfg, t, n - 1);
    LastTick(cfg, Run(cfg, t, Ticks(n - 1)));
  }

  lemma GrantedPinPlays(cfg: Config, pin: string, call: Call, n: int64)
    requires Submit(cfg, pin, call) == Granted(n) && n >= 1
    ensures var end := Run(cfg, BOOT, WholePin(pin, call) + Spent(n));
            end.played == n && end.engine.ctrl.locked && end.engine.ctrl.remaining == 0
  {
    PinLands(cfg, pin, call, n);
    Append(cfg, BOOT, WholePin(pin, call), Spent(n));
    SpentLocks(cfg, Run(cfg, BOOT, WholePin(pin, call)));
  }

  /** Entered after a failed call, the local PIN leaves the configured minutes in seconds, as
      64 bits hold them. */
  lemma LocalPinLands(cfg: Config)
    requires cfg.pin != ""
    ensures Run(cfg, BOOT, WholePin(cfg.pin, Failed)).engine
         == Engine(Controller(false, Wrap(cfg.graceMin * 60), false), Waiting, [Resting, Resting])
  {
    PinLands(cfg, cfg.pin, Failed, Wrap(cfg.graceMin * 60));
  }

  /** The local PIN, after a failed call, is worth exactly the configured minutes. */
  lemma LocalPinIsWorthItsMinutes(cfg: Config)
    requires cfg.pin != "" && 1 <= cfg.graceMin * 60 <= MAX
    ensures var end := Run(cfg, BOOT, WholePin(cfg.pin, Failed) + Spent(cfg.graceMin * 60));
            end.played == cfg.graceMin * 60 && end.engine.ctrl.locked && end.engine.ctrl.remaining == 0
  {
    GrantedPinPlays(cfg, cfg.pin, Failed, cfg.graceMin * 60);
  }

  /** A PIN the server accepts is worth exactly the seconds the server says, whatever it is. */
  lemma AcceptedPinIsWorthItsSeconds(cfg: Config, pin: string, remaining: int64)
    requires remaining >= 1
    ensures var end := Run(cfg, BOOT, WholePin(pin, Answered(true, remaining)) + Spent(remaining));
            end.played == remaining && end.engine.ctrl.locked && end.engine.ctrl.remaining == 0
  {
    GrantedPinPlays(cfg, pin, Answered(true, remaining), remaining);
  }

  /** Every response can be played for all it is counted as worth: an allowed one after it has
      landed, a denied one between its two stores. */
  lemma EveryWorthIsPlayed(cfg: Config, r: Response) returns (steps: seq<Step>)
    ensures var end := Run(cfg, BOOT, steps);
            r in end.responses && end.played == end.budget && end.played >= Worth(r)
  {
    if r.allowed {
      BeatLands(cfg, BOOT, r);
      var landed := Run(cfg, BOOT, WholeBeat(r));
      if r.remaining >= 1 {
        steps := WholeBeat(r) + Ticks(r.remaining);
        BoundIsTight(cfg, r.remaining);
        Append(cfg, BOOT, WholeBeat(r), Ticks(r.remaining));
        TicksPlay(cfg, landed, r.remaining);
      } else {
        steps := WholeBeat(r) + [Check];
        Append(cfg, BOOT, WholeBeat(r), [Check]);
        Through(cfg, [Check], [landed, Advance(cfg, landed, Check)]);
      }
    } else {
      steps := DeniedPlays(cfg, r);
    }
  }

  /** One second granted, then a denied beat that has stored its seconds but not its lock. */
  lemma DeniedPlays(cfg: Config, r: Response) returns (steps: seq<Step>)
    requires !r.allowed
    ensures var end := Run(cfg, BOOT, steps);
            r in end.responses && end.played == end.budget && end.played >= Worth(r)
  {
    var grant := Response(1, true);
    var half := [BeatAnswered(r), Write(0), Write(0)];
    var first := WholeBeat(grant) + half;
    BeatLands(cfg, BOOT, grant);
    var landed := Run(cfg, BOOT, WholeBeat(grant));
    HalfLands(cfg, landed, r);
    Append(cfg, BOOT, WholeBeat(grant), half);
    var t := Run(cfg, BOOT, first);
    if r.remaining >= 1 {
      steps := first + Ticks(r.remaining);
      Append(cfg, BOOT, first, Ticks(r.remaining));
      TicksPlay(cfg, t, r.remaining);
    } else {
      steps := first + [Check];
      Append(cfg, BOOT, first, [Check]);
      Through(cfg, [Check], [t, Advance(cfg, t, Check)]);
    }
  }

  lemma HalfLands(cfg: Config, t: Tally, r: Response)
    requires t.engine.writers == [Resting] && t.engine.countdown.Waiting?
    ensures Run(cfg, t, [BeatAnswered(r), Write(0), Write(0)]) ==
              Tally(Engine(Controller(t.engine.ctrl.locked, r.remaining, true), Waiting, [SetsLocked(r.allowed)]),
                    t.played, t.budget + Worth(r), t.responses + {r})
  {
    var t1 := Advance(cfg, t, BeatAnswered(r));
    var t2 := Advance(cfg, t1, Write(0));
    Through(cfg, [BeatAnswered(r), Write(0), Write(0)], [t, t1, t2, Advance(cfg, t2, Write(0))]);
  }
}
