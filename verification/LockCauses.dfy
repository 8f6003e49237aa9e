/** What locks the engine and what changes its other fields: the dual of what unlocks it. */
module LockCauses {
  import opened Int64
  import opened LockEngine
  import opened LockRuns

  /** The engine after `steps`. */
  function After(cfg: Config, steps: seq<Step>): Engine {
    Run(cfg, BOOT, steps).engine
  }

  /** Thread `t` carries a denied beat. */
  predicate Denies(s: Engine, t: nat) {
    t < |s.writers| &&
    match s.writers[t]
    case Resting => false
    case SetsOnline(r) => !r.allowed
    case SetsRemaining(r) => !r.allowed
    case SetsLocked(allowed) => !allowed
  }

  /** The countdown has computed its end and has not locked yet. */
  predicate Ending(s: Engine) {
    s.countdown == Computed(0, true) || s.countdown.Locking?
  }

  /** Only the countdown's lock and the last store of a denied beat lock; nothing else does,
      a failed beat least of all. */
  lemma LockingStep(cfg: Config, s: Engine, step: Step)
    requires !s.ctrl.locked && Apply(cfg, s, step).ctrl.locked
    ensures || (step.StoreLock? && s.countdown.Locking?)
            || (step.Write? && Denies(s, step.t) && s.writers[step.t].SetsLocked?)
  {
  }

  /** Step `j` computed the end, from no more than a second left, and the countdown has been
      about to lock ever since. */
  ghost predicate Expired(cfg: Config, steps: seq<Step>, j: nat)
    requires j < |steps|
  {
    && steps[j].Load? && After(cfg, steps[..j]).countdown.Passed?
    && MIN < After(cfg, steps[..j]).ctrl.remaining <= 1
    && forall k :: j < k <= |steps| ==> EndingAfter(cfg, steps, k)
  }

  predicate EndingAfter(cfg: Config, steps: seq<Step>, k: nat)
    requires k <= |steps|
  {
    Ending(After(cfg, steps[..k]))
  }

  /** Step `j` was a denied beat and thread 0 has carried it ever since. */
  ghost predicate Denied(cfg: Config, steps: seq<Step>, j: nat)
    requires j < |steps|
  {
    && steps[j].BeatAnswered? && !steps[j].r.allowed
    && forall k :: j < k <= |steps| ==> DeniesAfter(cfg, steps, k)
  }

  predicate DeniesAfter(cfg: Config, steps: seq<Step>, k: nat)
    requires k <= |steps|
  {
    Denies(After(cfg, steps[..k]), 0)
  }

  lemma EndingStarts(cfg: Config, s: Engine, step: Step)
    requires !Ending(s) && Ending(Apply(cfg, s, step)) && NoStray(s)
    ensures step.Load? && s.countdown.Passed? && MIN < s.ctrl.remaining <= 1
  {
  }

  /** A computed value that locks is 0. */
  predicate NoStray(s: Engine) {
    s.countdown.Computed? && s.countdown.lock ==> s.countdown.next == 0
  }

  lemma {:induction false} NeverStray(cfg: Config, steps: seq<Step>)
    ensures NoStray(After(cfg, steps))
  {
    if steps != [] {
      NeverStray(cfg, steps[..|steps| - 1]);
    }
  }

  lemma StillExpired(cfg: Config, steps: seq<Step>, step: Step, j: nat)
    requires j < |steps| && Expired(cfg, steps, j) && Ending(After(cfg, steps + [step]))
    ensures Expired(cfg, steps + [step], j)
  {
    var longer := steps + [step];
    assert longer[..j] == steps[..j] && longer[..|longer|] == longer;
    forall k | j < k <= |longer| ensures EndingAfter(cfg, longer, k) {
      if k <= |steps| {
        assert longer[..k] == steps[..k];
        assert EndingAfter(cfg, steps, k);
      }
    }
  }

  lemma {:induction false} EndingHasCause(cfg: Config, steps: seq<Step>)
    requires Ending(After(cfg, steps))
    ensures exists j :: 0 <= j < |steps| && Expired(cfg, steps, j)
  {
    var init, step := steps[..|steps| - 1], steps[|steps| - 1];
    assert steps == init + [step] && steps[..|steps|] == steps;
    if Ending(After(cfg, init)) {
      EndingHasCause(cfg, init);
      var j :| 0 <= j < |init| && Expired(cfg, init, j);
      StillExpired(cfg, init, step, j);
    } else {
      NeverStray(cfg, init);
      EndingStarts(cfg, After(cfg, init), step);
      assert Expired(cfg, steps, |init|);
    }
  }

  lemma DenialStarts(cfg: Config, s: Engine, step: Step, t: nat)
    requires !Denies(s, t) && Denies(Apply(cfg, s, step), t)
    ensures t == 0 && step.BeatAnswered? && !step.r.allowed
  {
  }

  lemma StillDenied(cfg: Config, steps: seq<Step>, step: Step, j: nat)
    requires j < |steps| && Denied(cfg, steps, j) && Denies(After(cfg, steps + [step]), 0)
    ensures Denied(cfg, steps + [step], j)
  {
    var longer := steps + [step];
    assert longer[..|longer|] == longer;
    forall k | j < k <= |longer| ensures DeniesAfter(cfg, longer, k) {
      if k <= |steps| {
        assert longer[..k] == steps[..k];
        assert DeniesAfter(cfg, steps, k);
      }
    }
  }

  lemma {:induction false} DenialHasCause(cfg: Config, steps: seq<Step>, t: nat)
    requires Denies(After(cfg, steps), t)
    ensures t == 0 && exists j :: 0 <= j < |steps| && Denied(cfg, steps, j)
  {
    if steps != [] {
      var init, step := steps[..|steps| - 1], steps[|steps| - 1];
      assert steps == init + [step] && steps[..|steps|] == steps;
      if Denies(After(cfg, init), t) {
        DenialHasCause(cfg, init, t);
        var j :| 0 <= j < |init| && Denied(cfg, init, j);
        StillDenied(cfg, init, step, j);
      } else {
        DenialStarts(cfg, After(cfg, init), step, t);
        assert Denied(cfg, steps, |init|);
      }
    }
  }

  /** The screen goes from unlocked to locked only when the countdown stores the lock it
      computed from no more than a second left, or in the last store of a denied beat. */
  lemma LockHasCause(cfg: Config, steps: seq<Step>, step: Step)
    requires !After(cfg, steps).ctrl.locked && After(cfg, steps + [step]).ctrl.locked
    ensures || (step.StoreLock? && exists j :: 0 <= j < |steps| && Expired(cfg, steps, j))
            || (step == Write(0) && exists j :: 0 <= j < |steps| && Denied(cfg, steps, j))
  {
    assert (steps + [step])[..|steps|] == steps;
    LockingStep(cfg, After(cfg, steps), step);
    if step.StoreLock? {
      EndingHasCause(cfg, steps);
    } else {
      DenialHasCause(cfg, steps, step.t);
    }
  }

  /** The seconds change only when the countdown stores what it computed or a thread stores
      what its response said. */
  lemma RemainingHasCause(cfg: Config, s: Engine, step: Step)
    requires Apply(cfg, s, step).ctrl.remaining != s.ctrl.remaining
    ensures var v := Apply(cfg, s, step).ctrl.remaining;
            || (step.StoreTick? && s.countdown.Computed? && v == s.countdown.next)
            || (step.Write? && step.t < |s.writers| && s.writers[step.t].SetsRemaining?
                && v == s.writers[step.t].r.remaining)
  {
  }

  /** The connection flag goes down only with a failed beat and up only with an answered one. */
  lemma OnlineHasCause(cfg: Config, s: Engine, step: Step)
    requires Apply(cfg, s, step).ctrl.online != s.ctrl.online
    ensures if s.ctrl.online then step == BeatFailed
            else step.Write? && step.t < |s.writers| && s.writers[step.t].SetsOnline?
  {
  }

  /** A failed beat takes the engine offline and nothing more: lock and seconds stay, and so
      does every thread. */
  lemma FailedBeatKeepsLastKnown(cfg: Config, s: Engine)
    requires |s.writers| > 0 && s.writers[0].Resting?
    ensures var v := Apply(cfg, s, BeatFailed);
            && v.ctrl == Controller(s.ctrl.locked, s.ctrl.remaining, false)
            && v.countdown == s.countdown && v.writers == s.writers
  {
  }

  // ---------- What sets a thread going ----------

  /** A thread at rest is set going exactly by an arrival, and then carries its response. */
  lemma ArrivalExactly(cfg: Config, s: Engine, step: Step, t: nat, r: Response)
    requires t < |s.writers| && s.writers[t].Resting?
    ensures ArrivalOf(cfg, s, step) == Arrives(t, r) <==>
              Apply(cfg, s, step).writers[t] == (if t == 0 then SetsOnline(r) else SetsRemaining(r))
  {
  }

  /** A resting thread comes to unlock exactly through an event that may unlock. */
  lemma MayUnlockExactly(cfg: Config, s: Engine, step: Step, t: nat)
    requires t < |s.writers| && s.writers[t].Resting? && (step.PinAttempt? ==> step.t > 0)
    ensures About(Apply(cfg, s, step), t) <==> MayUnlock(cfg, step, t)
  {
  }

  /** A PIN that is refused changes nothing at all. */
  lemma RefusedPinChangesNothing(cfg: Config, s: Engine, t: nat, pin: string, call: Call)
    requires match call
             case Answered(ok, _) => !ok
             case Failed => cfg.pin == "" || pin != cfg.pin
    ensures Apply(cfg, s, PinAttempt(t, pin, call)) == s
  {
  }
}
