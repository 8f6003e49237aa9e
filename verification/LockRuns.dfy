/** Whole runs of the lock engine from its fail-closed start: the play bound and exactly
    when it holds, and what can unlock the screen. */
module LockRuns {
  import opened Int64
  import opened LockEngine

  lemma {:induction false} Append(cfg: Config, t: Tally, a: seq<Step>, b: seq<Step>)
    ensures Run(cfg, t, a + b) == Run(cfg, Run(cfg, t, a), b)
  {
    if b == [] {
      assert a + b == a;
    } else {
      assert (a + b)[..|a + b| - 1] == a + b[..|b| - 1];
      Append(cfg, t, a, b[..|b| - 1]);
    }
  }

  /** A run described tally by tally. */
  lemma {:induction false} Through(cfg: Config, steps: seq<Step>, tallies: seq<Tally>)
    requires |tallies| == |steps| + 1
    requires forall k :: 0 <= k < |steps| ==> tallies[k + 1] == Advance(cfg, tallies[k], steps[k])
    ensures Run(cfg, tallies[0], steps) == tallies[|steps|]
  {
    if steps != [] {
      Through(cfg, steps[..|steps| - 1], tallies[..|steps|]);
    }
  }

  // ---------- The bound from the start ----------

  /** From the locked start, over any interleaving, the seconds that pass the locked check
      are at most the sum of what the responses were worth. */
  lemma BoundedPlay(cfg: Config, steps: seq<Step>)
    requires forall r :: r in Run(cfg, BOOT, steps).responses ==> r.remaining != MIN
    ensures Run(cfg, BOOT, steps).played <= Run(cfg, BOOT, steps).budget
  {
    PlayIsBounded(cfg, BOOT, steps);
    assert START.writers == [Resting] && OwedAll(START.writers) == 0;
  }

  /** An outage only spends: with no response arriving, play is at most what is in hand. */
  lemma OutageOnlySpends(cfg: Config, s: Engine, steps: seq<Step>)
    requires NoLeast(s) && Run(cfg, Tally(s, 0, 0, {}), steps).responses == {}
    ensures Run(cfg, Tally(s, 0, 0, {}), steps).played <= Potential(s)
  {
    PlayIsBounded(cfg, Tally(s, 0, 0, {}), steps);
    NoBudget(cfg, Tally(s, 0, 0, {}), steps);
  }

  lemma {:induction false} NoBudget(cfg: Config, t: Tally, steps: seq<Step>)
    requires Run(cfg, t, steps).responses == {}
    ensures Run(cfg, t, steps).budget == t.budget
  {
    if steps != [] {
      NoBudget(cfg, t, steps[..|steps| - 1]);
    }
  }

  // ---------- The bound is attained ----------

  /** One undisturbed second of the countdown. */
  const TICK := [Check, Load, StoreTick]

  function Ticks(k: nat): seq<Step> {
    if k == 0 then [] else TICK + Ticks(k - 1)
  }

  lemma {:induction false} TicksSplit(k: nat)
    ensures Ticks(k + 1) == Ticks(k) + TICK
  {
    if k > 0 {
      TicksSplit(k - 1);
      assert TICK + (Ticks(k - 1) + TICK) == (TICK + Ticks(k - 1)) + TICK;
    } else {
      assert TICK + [] == TICK && [] + TICK == TICK;
    }
  }

  lemma TickLands(cfg: Config, t: Tally)
    requires t.engine.countdown.Waiting? && !t.engine.ctrl.locked && t.engine.ctrl.remaining >= 1
    ensures var end, left := Run(cfg, t, TICK), t.engine.ctrl.remaining - 1;
            && end == Tally(end.engine, t.played + 1, t.budget, t.responses)
            && (left > 0 ==> end.engine == t.engine.(ctrl := t.engine.ctrl.(remaining := left)))
  {
    var t1 := Advance(cfg, t, Check);
    var t2 := Advance(cfg, t1, Load);
    Through(cfg, TICK, [t, t1, t2, Advance(cfg, t2, StoreTick)]);
  }

  lemma {:induction false} TicksPlay(cfg: Config, t: Tally, k: nat)
    requires t.engine.countdown.Waiting? && !t.engine.ctrl.locked && k <= t.engine.ctrl.remaining
    ensures var end := Run(cfg, t, Ticks(k));
            && end == Tally(end.engine, t.played + k, t.budget, t.responses)
            && (k < t.engine.ctrl.remaining ==>
                 end.engine == t.engine.(ctrl := t.engine.ctrl.(remaining := t.engine.ctrl.remaining - k)))
    decreases k
  {
    if k > 0 {
      TickLands(cfg, t);
      Append(cfg, t, TICK, Ticks(k - 1));
      if k > 1 {
        TicksPlay(cfg, Run(cfg, t, TICK), k - 1);
      }
    }
  }

  /** A beat carried out from answer to last store, with nothing in between. */
  function WholeBeat(r: Response): seq<Step> {
    [BeatAnswered(r), Write(0), Write(0), Write(0)]
  }

  lemma BeatLands(cfg: Config, t: Tally, r: Response)
    requires t.engine.writers == [Resting] && t.engine.countdown.Waiting?
    ensures Run(cfg, t, WholeBeat(r)) ==
              Tally(Engine(Controller(!r.allowed, r.remaining, true), Waiting, [Resting]),
                    t.played, t.budget + Worth(r), t.responses + {r})
  {
    var t1 := Advance(cfg, t, BeatAnswered(r));
    var t2 := Advance(cfg, t1, Write(0));
    var t3 := Advance(cfg, t2, Write(0));
    Through(cfg, WholeBeat(r), [t, t1, t2, t3, Advance(cfg, t3, Write(0))]);
  }

  /** One allowed response of `n` seconds can give exactly `n` seconds of play. */
  lemma BoundIsTight(cfg: Config, n: int64)
    requires n >= 1
    ensures var end := Run(cfg, BOOT, WholeBeat(Response(n, true)) + Ticks(n));
            end.played == end.budget == n
  {
    var r := Response(n, true);
    Append(cfg, BOOT, WholeBeat(r), Ticks(n));
    BeatLands(cfg, BOOT, r);
    TicksPlay(cfg, Run(cfg, BOOT, WholeBeat(r)), n);
  }

  // ---------- Exactly when the bound holds ----------

  /** A beat that has stored its remaining seconds but not yet its lock, and a second of the
      countdown. */
  function HalfBeat(r: Response): seq<Step> {
    [BeatAnswered(r), Write(0), Write(0), Check, Load, StoreTick]
  }

  /** If such a beat carries the least integer, the countdown wraps to the greatest. */
  lemma LeastWraps(cfg: Config, t: Tally, least: Response)
    requires t.engine.writers == [Resting] && t.engine.countdown.Waiting? && !t.engine.ctrl.locked
    requires least.remaining == MIN
    ensures Run(cfg, t, HalfBeat(least)) ==
              Tally(Engine(Controller(false, MAX, true), Waiting, [SetsLocked(least.allowed)]),
                    t.played + 1, t.budget + Worth(least), t.responses + {least})
  {
    var t1 := Advance(cfg, t, BeatAnswered(least));
    var t2 := Advance(cfg, t1, Write(0));
    var t3 := Advance(cfg, t2, Write(0));
    assert t3.engine == Engine(Controller(false, MIN, true), Waiting, [SetsLocked(least.allowed)]);
    var t4 := Advance(cfg, t3, Check);
    var t5 := Advance(cfg, t4, Load);
    Through(cfg, HalfBeat(least), [t, t1, t2, t3, t4, t5, Advance(cfg, t5, StoreTick)]);
  }

  lemma WrapRun(cfg: Config, grant: Response, least: Response, k: nat)
    requires grant.allowed && least.remaining == MIN && k <= MAX
    ensures var end := Run(cfg, BOOT, WholeBeat(grant) + HalfBeat(least) + Ticks(k));
            && end.played == k + 1 && end.budget == Worth(grant) + Worth(least)
            && end.responses == {grant, least}
  {
    var landed := Run(cfg, BOOT, WholeBeat(grant));
    BeatLands(cfg, BOOT, grant);
    Append(cfg, BOOT, WholeBeat(grant), HalfBeat(least));
    LeastWraps(cfg, landed, least);
    Append(cfg, BOOT, WholeBeat(grant) + HalfBeat(least), Ticks(k));
    TicksPlay(cfg, Run(cfg, landed, HalfBeat(least)), k);
  }

  lemma WrapBreaksBound(cfg: Config, grant: Response, least: Response)
    requires grant.allowed && least.remaining == MIN && (least.allowed ==> grant == least)
    ensures exists steps :: var end := Run(cfg, BOOT, steps); end.responses == {grant, least} && end.played > end.budget
  {
    WrapRun(cfg, grant, least, if least.allowed then 2 else Max(grant.remaining, 1));
  }

  ghost predicate StaysLocked(s: Engine) {
    && s.ctrl.locked && s.countdown.Waiting?
    && forall t :: 0 <= t < |s.writers| ==> !WillUnlock(s.writers[t])
  }

  lemma {:induction false} DeniedNeverPlays(cfg: Config, steps: seq<Step>)
    requires forall r :: r in Run(cfg, BOOT, steps).responses ==> !r.allowed
    ensures StaysLocked(Run(cfg, BOOT, steps).engine) && Run(cfg, BOOT, steps).played == 0
  {
    if steps != [] {
      var before, step := Run(cfg, BOOT, steps[..|steps| - 1]), steps[|steps| - 1];
      DeniedNeverPlays(cfg, steps[..|steps| - 1]);
      var arrival := ArrivalOf(cfg, before.engine, step);
      assert arrival.Arrives? ==> arrival.r in Run(cfg, BOOT, steps).responses;
    }
  }

  /** Runs whose responses come from `within` all keep the bound exactly when none of these
      responses carries the least 64-bit integer, or none of them ever unlocks. */
  lemma BoundHoldsExactly(cfg: Config, within: iset<Response>)
    ensures (forall steps :: (forall r :: r in Run(cfg, BOOT, steps).responses ==> r in within) ==>
               Run(cfg, BOOT, steps).played <= Run(cfg, BOOT, steps).budget)
       <==> (forall r :: r in within ==> r.remaining != MIN) || (forall r :: r in within ==> !r.allowed)
  {
    if least, grant :| least in within && least.remaining == MIN && grant in within && grant.allowed {
      WrapBreaksBound(cfg, if least.allowed then least else grant, least);
    } else {
      forall steps | forall r :: r in Run(cfg, BOOT, steps).responses ==> r in within
        ensures Run(cfg, BOOT, steps).played <= Run(cfg, BOOT, steps).budget
      {
        if least :| least in within && least.remaining == MIN {
          DeniedNeverPlays(cfg, steps);
        } else {
          BoundedPlay(cfg, steps);
        }
      }
    }
  }

  // ---------- What unlocks ----------

  /** The outside event that sets thread `t` going to unlock. */
  predicate MayUnlock(cfg: Config, step: Step, t: nat) {
    || (step.BeatAnswered? && t == 0 && step.r.allowed)
    || (step.PinAttempt? && step.t == t && step.call.Answered? && step.call.ok)
    || (step.PinAttempt? && step.t == t && step.call.Failed? && cfg.pin != "" && step.pin == cfg.pin)
  }

  predicate WillUnlock(w: Writer) {
    match w
    case Resting => false
    case SetsOnline(r) => r.allowed
    case SetsRemaining(r) => r.allowed
    case SetsLocked(allowed) => allowed
  }

  /** Step `j` set thread `t` going to unlock, and the thread has been about it ever since. */
  ghost predicate SetGoing(cfg: Config, steps: seq<Step>, j: nat, t: nat)
    requires j < |steps|
  {
    && MayUnlock(cfg, steps[j], t)
    && (var arrival := ArrivalOf(cfg, Run(cfg, BOOT, steps[..j]).engine, steps[j]); arrival.Arrives? && arrival.t == t)
    && forall k :: j < k <= |steps| ==> AboutAfter(cfg, steps, k, t)
  }

  predicate AboutAfter(cfg: Config, steps: seq<Step>, k: nat, t: nat)
    requires k <= |steps|
  {
    About(Run(cfg, BOOT, steps[..k]).engine, t)
  }

  predicate About(s: Engine, t: nat) {
    t < |s.writers| && WillUnlock(s.writers[t])
  }

  lemma GoesAbout(cfg: Config, s: Engine, step: Step, t: nat)
    requires !About(s, t) && About(Apply(cfg, s, step), t)
    ensures MayUnlock(cfg, step, t)
    ensures ArrivalOf(cfg, s, step).Arrives? && ArrivalOf(cfg, s, step).t == t
  {
  }

  lemma StillGoing(cfg: Config, steps: seq<Step>, step: Step, j: nat, t: nat)
    requires j < |steps| && SetGoing(cfg, steps, j, t) && About(Run(cfg, BOOT, steps + [step]).engine, t)
    ensures SetGoing(cfg, steps + [step], j, t)
  {
    var longer := steps + [step];
    assert longer[..j] == steps[..j] && longer[..|longer|] == longer;
    forall k | j < k <= |longer| ensures AboutAfter(cfg, longer, k, t) {
      if k <= |steps| {
        assert longer[..k] == steps[..k];
        assert AboutAfter(cfg, steps, k, t);
      }
    }
  }

  lemma {:induction false} UnlockerHasCause(cfg: Config, steps: seq<Step>, t: nat)
    requires About(Run(cfg, BOOT, steps).engine, t)
    ensures exists j :: 0 <= j < |steps| && SetGoing(cfg, steps, j, t)
  {
    if steps != [] {
      var init, step := steps[..|steps| - 1], steps[|steps| - 1];
      assert steps == init + [step] && steps[..|steps|] == steps;
      if About(Run(cfg, BOOT, init).engine, t) {
        UnlockerHasCause(cfg, init, t);
        var j :| 0 <= j < |init| && SetGoing(cfg, init, j, t);
        StillGoing(cfg, init, step, j, t);
      } else {
        GoesAbout(cfg, Run(cfg, BOOT, init).engine, step, t);
        assert SetGoing(cfg, steps, |init|, t);
      }
    }
  }

  /** The screen goes from locked to unlocked only in the last store of a thread that was
      set going, for this very store, by an allowed beat, a PIN the server accepted, or the
      local PIN, non-empty and matching, after an unlock call that failed. */
  lemma UnlockHasCause(cfg: Config, steps: seq<Step>, step: Step)
    requires Run(cfg, BOOT, steps).engine.ctrl.locked && !Run(cfg, BOOT, steps + [step]).engine.ctrl.locked
    ensures step.Write? && exists j :: 0 <= j < |steps| && SetGoing(cfg, steps, j, step.t)
    ensures !About(Run(cfg, BOOT, steps + [step]).engine, step.t)
  {
    assert (steps + [step])[..|steps|] == steps;
    UnlockerHasCause(cfg, steps, step.t);
  }

  /** Store `k` unlocked the screen, step `j` having set its thread going, and nothing has
      locked it since. */
  ghost predicate Unlocked(cfg: Config, steps: seq<Step>, k: nat, j: nat)
    requires j < k < |steps|
  {
    && steps[k].Write? && SetGoing(cfg, steps[..k], j, steps[k].t)
    && forall m :: k <= m <= |steps| ==> (LockedAfter(cfg, steps, m) <==> m == k)
  }

  predicate LockedAfter(cfg: Config, steps: seq<Step>, m: nat)
    requires m <= |steps|
  {
    Run(cfg, BOOT, steps[..m]).engine.ctrl.locked
  }

  lemma StillUnlocked(cfg: Config, steps: seq<Step>, step: Step, k: nat, j: nat)
    requires j < k < |steps| && Unlocked(cfg, steps, k, j) && !Run(cfg, BOOT, steps + [step]).engine.ctrl.locked
    ensures Unlocked(cfg, steps + [step], k, j)
  {
    var longer := steps + [step];
    assert longer[..|longer|] == longer && longer[..k] == steps[..k];
    forall m | k <= m <= |longer| ensures LockedAfter(cfg, longer, m) <==> m == k {
      if m <= |steps| {
        assert longer[..m] == steps[..m];
        assert LockedAfter(cfg, steps, m) <==> m == k;
      }
    }
  }

  lemma JustUnlocked(cfg: Config, steps: seq<Step>, step: Step)
    requires Run(cfg, BOOT, steps).engine.ctrl.locked && !Run(cfg, BOOT, steps + [step]).engine.ctrl.locked
    ensures exists j :: 0 <= j < |steps| && Unlocked(cfg, steps + [step], |steps|, j)
  {
    UnlockHasCause(cfg, steps, step);
    var j :| 0 <= j < |steps| && SetGoing(cfg, steps, j, step.t);
    var longer := steps + [step];
    assert longer[..|steps|] == steps && longer[..|longer|] == longer;
    forall m | |steps| <= m <= |longer| ensures LockedAfter(cfg, longer, m) <==> m == |steps| {
      assert m == |steps| || m == |longer|;
    }
    assert Unlocked(cfg, longer, |steps|, j);
  }

  /** So an unlocked engine always has an unlocking store and its cause behind it. */
  lemma {:induction false} UnlockedHasCause(cfg: Config, steps: seq<Step>)
    requires !Run(cfg, BOOT, steps).engine.ctrl.locked
    ensures exists k, j :: 0 <= j < k < |steps| && Unlocked(cfg, steps, k, j)
  {
    var init, step := steps[..|steps| - 1], steps[|steps| - 1];
    assert steps == init + [step];
    if Run(cfg, BOOT, init).engine.ctrl.locked {
      JustUnlocked(cfg, init, step);
    } else {
      UnlockedHasCause(cfg, init);
      var k, j :| 0 <= j < k < |init| && Unlocked(cfg, init, k, j);
      StillUnlocked(cfg, init, step, k, j);
    }
  }
}
