/** When an unlocked engine has time remaining: what the lost updates break, and what runs
    without them keep. */
module LockTime {
  import opened Int64
  import opened LockEngine
  import opened LockRuns
  import Seqs

  /** Every thread has finished what it was doing. */
  predicate AtRest(s: Engine) {
    s.countdown.Waiting? && forall t :: 0 <= t < |s.writers| ==> s.writers[t].Resting?
  }

  predicate HasTime(s: Engine) {
    s.ctrl.locked || s.ctrl.remaining > 0
  }

  ghost predicate Within(cfg: Config, steps: seq<Step>, within: iset<Response>) {
    forall r :: r in Run(cfg, BOOT, steps).responses ==> r in within
  }

  // ---------- Any interleaving ----------

  /** The countdown computes its last second and a beat stores its remaining seconds. */
  function BeatOvertakes(r: Response): seq<Step> {
    [Check, Load, BeatAnswered(r), Write(0), Write(0)]
  }

  /** Then the countdown stores 0 and locks, and the beat unlocks. */
  const UNLOCK_AT_ZERO: seq<Step> := [StoreTick, StoreLock, Write(0)]

  lemma OvertakenAtOne(cfg: Config, t: Tally, r: Response)
    requires t.engine == Engine(Controller(false, 1, true), Waiting, [Resting])
    ensures var end := Run(cfg, t, BeatOvertakes(r));
            && end.engine == Engine(Controller(false, r.remaining, true), Computed(0, true), [SetsLocked(r.allowed)])
            && end.responses == t.responses + {r}
  {
    var t1 := Advance(cfg, t, Check);
    var t2 := Advance(cfg, t1, Load);
    var t3 := Advance(cfg, t2, BeatAnswered(r));
    var t4 := Advance(cfg, t3, Write(0));
    Through(cfg, BeatOvertakes(r), [t, t1, t2, t3, t4, Advance(cfg, t4, Write(0))]);
  }

  lemma UnlocksAtZero(cfg: Config, t: Tally)
    requires t.engine.countdown == Computed(0, true) && t.engine.writers == [SetsLocked(true)] && t.engine.ctrl.online
    ensures var end := Run(cfg, t, UNLOCK_AT_ZERO);
            end.engine == Engine(Controller(false, 0, true), Waiting, [Resting]) && end.responses == t.responses
  {
    var t1 := Advance(cfg, t, StoreTick);
    var t2 := Advance(cfg, t1, StoreLock);
    Through(cfg, UNLOCK_AT_ZERO, [t, t1, t2, Advance(cfg, t2, Write(0))]);
  }

  /** Unlocked does not imply time remaining. Two beats with the same answer are enough: the
      first is counted down to its last second, and the countdown's store of 0 falls between
      the second one's two stores. */
  lemma LostUpdateUnlocksAtZero(cfg: Config, r: Response)
    requires r.allowed && r.remaining > 0
    ensures var end := Run(cfg, BOOT, WholeBeat(r) + Ticks(r.remaining - 1) + BeatOvertakes(r) + UNLOCK_AT_ZERO);
            end.engine == Engine(Controller(false, 0, true), Waiting, [Resting]) && end.responses == {r}
  {
    var steps := WholeBeat(r) + Ticks(r.remaining - 1);
    BeatLands(cfg, BOOT, r);
    Append(cfg, BOOT, WholeBeat(r), Ticks(r.remaining - 1));
    TicksPlay(cfg, Run(cfg, BOOT, WholeBeat(r)), r.remaining - 1);
    Append(cfg, BOOT, steps, BeatOvertakes(r));
    OvertakenAtOne(cfg, Run(cfg, BOOT, steps), r);
    Append(cfg, BOOT, steps + BeatOvertakes(r), UNLOCK_AT_ZERO);
    UnlocksAtZero(cfg, Run(cfg, BOOT, steps + BeatOvertakes(r)));
  }

  lemma AllowedCanRestAtZero(cfg: Config, r: Response) returns (steps: seq<Step>)
    requires r.allowed
    ensures var end := Run(cfg, BOOT, steps); end.responses == {r} && AtRest(end.engine) && !HasTime(end.engine)
  {
    if r.remaining > 0 {
      steps := WholeBeat(r) + Ticks(r.remaining - 1) + BeatOvertakes(r) + UNLOCK_AT_ZERO;
      LostUpdateUnlocksAtZero(cfg, r);
    } else {
      steps := WholeBeat(r);
      BeatLands(cfg, BOOT, r);
    }
  }

  /** Over all interleavings with responses from `within`, an engine at rest that is
      unlocked has time remaining exactly when none of the responses ever unlocks. */
  lemma RestsWithTimeExactly(cfg: Config, within: iset<Response>)
    ensures (forall steps :: Within(cfg, steps, within) && AtRest(Run(cfg, BOOT, steps).engine) ==>
               HasTime(Run(cfg, BOOT, steps).engine))
       <==> (forall r :: r in within ==> !r.allowed)
  {
    if r :| r in within && r.allowed {
      var steps := AllowedCanRestAtZero(cfg, r);
      assert Within(cfg, steps, within);
    } else {
      forall steps | Within(cfg, steps, within) ensures HasTime(Run(cfg, BOOT, steps).engine) {
        DeniedNeverPlays(cfg, steps);
      }
    }
  }

  // ---------- Without lost updates ----------

  /** No writer is between its store of the seconds and its store of the lock. */
  predicate NoPairOpen(s: Engine) {
    forall t :: 0 <= t < |s.writers| ==> !s.writers[t].SetsLocked?
  }

  /** A store that splits no other thread's stores: the countdown's none of a writer's two,
      and a writer's neither another writer's nor what the countdown does from its load on. */
  predicate InTurn(s: Engine, step: Step) {
    match step
    case StoreTick => s.countdown.Computed? ==> NoPairOpen(s)
    case StoreLock => s.countdown.Locking? ==> NoPairOpen(s)
    case Write(t) =>
      t < |s.writers| && (s.writers[t].SetsRemaining? || s.writers[t].SetsLocked?) ==>
        && !s.countdown.Computed? && !s.countdown.Locking?
        && forall u :: 0 <= u < |s.writers| && s.writers[u].SetsLocked? ==> u == t
    case _ => true
  }

  ghost predicate Serial(cfg: Config, steps: seq<Step>) {
    steps == [] ||
    var init := steps[..|steps| - 1];
    Serial(cfg, init) && InTurn(Run(cfg, BOOT, init).engine, steps[|steps| - 1])
  }

  /** A PIN unlock stores its seconds; a denied beat makes both its stores; the PIN unlocks. */
  const CROSSED: seq<Step> :=
    [Spawn, PinAttempt(1, "", Answered(true, 5)), BeatAnswered(Response(0, false)),
     Write(0), Write(1), Write(0), Write(0), Write(1)]

  /** The countdown is not needed for it: two writers whose stores cross leave the engine
      unlocked at 0 although every response that unlocks carries time. */
  lemma CrossedWritersUnlockAtZero(cfg: Config)
    ensures var end := Run(cfg, BOOT, CROSSED);
            && end.engine == Engine(Controller(false, 0, true), Waiting, [Resting, Resting])
            && end.responses == {Response(5, true), Response(0, false)}
  {
    var t1 := Advance(cfg, BOOT, Spawn);
    var t2 := Advance(cfg, t1, PinAttempt(1, "", Answered(true, 5)));
    var t3 := Advance(cfg, t2, BeatAnswered(Response(0, false)));
    var t4 := Advance(cfg, t3, Write(0));
    var t5 := Advance(cfg, t4, Write(1));
    var t6 := Advance(cfg, t5, Write(0));
    var t7 := Advance(cfg, t6, Write(0));
    Through(cfg, CROSSED, [BOOT, t1, t2, t3, t4, t5, t6, t7, Advance(cfg, t7, Write(1))]);
  }

  /** No thread is in the middle of its stores. */
  predicate Settled(s: Engine) {
    NoPairOpen(s) && !s.countdown.Locking?
  }

  predicate Backed(r: Response) {
    r.allowed ==> r.remaining > 0
  }

  predicate WriterBacked(s: Engine, w: Writer) {
    match w
    case Resting => true
    case SetsOnline(r) => Backed(r)
    case SetsRemaining(r) => Backed(r)
    case SetsLocked(allowed) => !s.countdown.Locking? && (allowed ==> s.ctrl.remaining > 0)
  }

  ghost predicate TimeInv(s: Engine) {
    && (forall t :: 0 <= t < |s.writers| ==> WriterBacked(s, s.writers[t]))
    && (s.countdown.Computed? && !s.countdown.lock ==> s.countdown.next > 0)
    && (Settled(s) ==> HasTime(s))
  }

  /** Only a writer's own last store closes its pair. */
  lemma PairStaysOpen(cfg: Config, s: Engine, step: Step)
    requires !NoPairOpen(s)
    requires !(step.Write? && step.t < |s.writers| && s.writers[step.t].SetsLocked?)
    ensures !NoPairOpen(Apply(cfg, s, step))
  {
    var u :| 0 <= u < |s.writers| && s.writers[u].SetsLocked?;
    var v := Apply(cfg, s, step);
    assert u < |v.writers| && v.writers[u] == s.writers[u];
  }

  lemma TimeInvKept(cfg: Config, s: Engine, step: Step)
    requires TimeInv(s) && InTurn(s, step)
    requires ArrivalOf(cfg, s, step).Arrives? ==> Backed(ArrivalOf(cfg, s, step).r)
    ensures TimeInv(Apply(cfg, s, step))
  {
    if step.Write? && step.t < |s.writers| && s.writers[step.t].SetsLocked? {
      assert WriterBacked(s, s.writers[step.t]);
    } else if !NoPairOpen(s) {
      PairStaysOpen(cfg, s, step);
    } else if step.Write? && step.t < |s.writers| && s.writers[step.t].SetsRemaining? {
      assert Apply(cfg, s, step).writers[step.t].SetsLocked?;
    }
  }

  lemma {:induction false} SerialKeepsTime(cfg: Config, steps: seq<Step>)
    requires Serial(cfg, steps) && forall r :: r in Run(cfg, BOOT, steps).responses ==> Backed(r)
    ensures TimeInv(Run(cfg, BOOT, steps).engine)
  {
    if steps != [] {
      var init, step := steps[..|steps| - 1], steps[|steps| - 1];
      var before := Run(cfg, BOOT, init);
      SerialKeepsTime(cfg, init);
      var arrival := ArrivalOf(cfg, before.engine, step);
      assert arrival.Arrives? ==> arrival.r in Run(cfg, BOOT, steps).responses;
      TimeInvKept(cfg, before.engine, step);
    }
  }

  lemma SerialSnoc(cfg: Config, steps: seq<Step>, step: Step)
    requires Serial(cfg, steps) && InTurn(Run(cfg, BOOT, steps).engine, step)
    ensures Serial(cfg, steps + [step])
    ensures Run(cfg, BOOT, steps + [step]) == Advance(cfg, Run(cfg, BOOT, steps), step)
  {
    assert (steps + [step])[..|steps|] == steps;
  }

  lemma WholeBeatIsSerial(cfg: Config, r: Response)
    ensures Serial(cfg, WholeBeat(r))
  {
    var b: seq<Step>, w := [BeatAnswered(r)], Write(0);
    SerialSnoc(cfg, [], b[0]);
    assert [] + [b[0]] == b;
    SerialSnoc(cfg, b, w);
    SerialSnoc(cfg, b + [w], w);
    SerialSnoc(cfg, b + [w] + [w], w);
    assert WholeBeat(r) == b + [w] + [w] + [w];
  }

  /** Over the interleavings that split no pair of stores, an unlocked engine has time
      remaining whenever no thread is in the middle of its stores, exactly when every
      response that unlocks carries time. */
  lemma SerialHasTimeExactly(cfg: Config, within: iset<Response>)
    ensures (forall steps ::
               Within(cfg, steps, within) && Serial(cfg, steps) && Settled(Run(cfg, BOOT, steps).engine) ==>
               HasTime(Run(cfg, BOOT, steps).engine))
       <==> (forall r :: r in within ==> Backed(r))
  {
    if r :| r in within && !Backed(r) {
      BeatLands(cfg, BOOT, r);
      WholeBeatIsSerial(cfg, r);
      assert Within(cfg, WholeBeat(r), within);
    } else {
      forall steps | Within(cfg, steps, within) && Serial(cfg, steps) && Settled(Run(cfg, BOOT, steps).engine)
        ensures HasTime(Run(cfg, BOOT, steps).engine)
      {
        SerialKeepsTime(cfg, steps);
      }
    }
  }

  // ---------- Ordinary runs are serial ----------

  /** A serial run that has left `m` seconds and no pair open. */
  ghost predicate ReadyToTick(cfg: Config, steps: seq<Step>, m: int) {
    var s := Run(cfg, BOOT, steps).engine;
    Serial(cfg, steps) && NoPairOpen(s) && s.countdown.Waiting? && !s.ctrl.locked && s.ctrl.remaining == m
  }

  lemma ReadyAgain(cfg: Config, steps: seq<Step>, m: int)
    requires ReadyToTick(cfg, steps, m) && m > 1
    ensures ReadyToTick(cfg, steps + TICK, m - 1)
  {
    SerialTick(cfg, steps);
    Append(cfg, BOOT, steps, TICK);
    TickLands(cfg, Run(cfg, BOOT, steps));
  }

  lemma {:induction false} SerialTicks(cfg: Config, steps: seq<Step>, m: int, n: nat)
    requires ReadyToTick(cfg, steps, m) && n < m
    ensures ReadyToTick(cfg, steps + Ticks(n), m - n)
    decreases n
  {
    if n == 0 {
      assert steps + [] == steps;
    } else {
      ReadyAgain(cfg, steps, m);
      SerialTicks(cfg, steps + TICK, m - 1, n - 1);
      Seqs.Assoc(steps, TICK, Ticks(n - 1));
    }
  }

  lemma SerialTick(cfg: Config, steps: seq<Step>)
    requires Serial(cfg, steps) && NoPairOpen(Run(cfg, BOOT, steps).engine)
    ensures Serial(cfg, steps + TICK)
  {
    var c, l := steps + [Check], steps + [Check] + [Load];
    SerialSnoc(cfg, steps, Check);
    SerialSnoc(cfg, c, Load);
    SerialSnoc(cfg, l, StoreTick);
    assert l + [StoreTick] == steps + TICK;
  }

  /** A beat and an undisturbed countdown split nobody's stores. */
  lemma OrdinaryRunIsSerial(cfg: Config, n: int64, k: nat)
    requires k < n
    ensures Serial(cfg, WholeBeat(Response(n, true)) + Ticks(k))
  {
    WholeBeatIsSerial(cfg, Response(n, true));
    BeatLands(cfg, BOOT, Response(n, true));
    SerialTicks(cfg, WholeBeat(Response(n, true)), n, k);
  }
}
