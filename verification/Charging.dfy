/** Whole runs of the time bank: what each beat charges, what the audit log replays to,
    and how far a session's charge can stray from the time it spanned. */
module Charging {
  import opened Int64
  import opened Accounting
  import opened Times
  import opened Ledger
  import Seqs

  // ---------- Charging, told from the run alone ----------

  /** The index of the latest beat of `user`, or -1. */
  function LastBeat(ops: seq<Op>, user: string): (k: int)
    ensures -1 <= k < |ops|
    ensures k >= 0 ==> ops[k].Heartbeat? && ops[k].name == user
    ensures forall i :: k < i < |ops| && ops[i].Heartbeat? ==> ops[i].name != user
  {
    if ops == [] then -1
    else
      var last := |ops| - 1;
      if ops[last].Heartbeat? && ops[last].name == user then last else LastBeat(ops[..last], user)
  }

  /** The balance, defined without any session fields: deposits, settings, and for each
      beat the time since the user's previous beat, provided that one came from the same
      machine and was allowed. */
  function TraceBalance(ops: seq<Op>, user: string): (b: int64)
    ensures b >= 0
    decreases |ops|, 0
  {
    if ops == [] then 0
    else
      var init, op := ops[..|ops| - 1], ops[|ops| - 1];
      var before := TraceBalance(init, user);
      if !Writes(op) || op.name != user then before
      else
        match op
        case EnsureUser(_) => before
        case Grant(_, seconds, _, _) => Deposit(before, seconds)
        case SetBalance(_, seconds, _, _) => Max(seconds, 0)
        case Heartbeat(_, _, _, _) => Deposit(before, -TraceCharge(init, op))
  }

  function TraceCharge(ops: seq<Op>, beat: Op): (c: int)
    requires beat.Heartbeat?
    ensures MIN <= -c <= MAX
    decreases |ops|, 1
  {
    var k := LastBeat(ops, beat.name);
    if k >= 0 && ops[k].machine == beat.machine && TraceBalance(ops[..k + 1], beat.name) > 0
    then Seconds(Min(Max(Sub(beat.now, ops[k].now), 0), beat.maxGap))
    else 0
  }

  /** The stored session is the latest beat, and it is live exactly if that beat was
      allowed, whatever grants and settings came after it. */
  lemma {:induction false} SessionIsLastBeat(ops: seq<Op>, user: string)
    ensures var u, k := UserOf(Run(EMPTY, ops), user), LastBeat(ops, user);
            && u.name == user
            && (k < 0 ==> !u.active)
            && (k >= 0 ==> && u.machine == ops[k].machine
                           && u.lastSeen == ops[k].now
                           && (u.active <==> UserOf(Run(EMPTY, ops[..k + 1]), user).balance > 0))
  {
    if ops != [] {
      var init := ops[..|ops| - 1];
      SessionIsLastBeat(init, user);
      var k := LastBeat(ops, user);
      if k == |ops| - 1 {
        assert ops[..k + 1] == ops;
      } else if k >= 0 {
        assert init[..k + 1] == ops[..k + 1];
      }
    }
  }

  /** The ledger's balance is the trace's, and what a beat charges is the trace's charge. */
  lemma {:induction false} ChargesExactly(ops: seq<Op>, user: string)
    ensures UserOf(Run(EMPTY, ops), user).balance == TraceBalance(ops, user)
    ensures forall beat: Op :: beat.Heartbeat? && beat.name == user ==>
              Charge(UserOf(Run(EMPTY, ops), user), beat.machine, beat.now, beat.maxGap) == TraceCharge(ops, beat)
    decreases |ops|
  {
    if ops != [] {
      ChargesExactly(ops[..|ops| - 1], user);
    }
    BalanceSteps(ops, user);
    SessionIsLastBeat(ops, user);
    var k := LastBeat(ops, user);
    if 0 <= k < |ops| - 1 {
      ChargesExactly(ops[..k + 1], user);
    } else if k >= 0 {
      assert ops[..k + 1] == ops;
    }
  }

  /** What the last operation does to the balance, if the charge is right. */
  lemma BalanceSteps(ops: seq<Op>, user: string)
    requires ops != [] ==>
               var init := ops[..|ops| - 1];
               && UserOf(Run(EMPTY, init), user).balance == TraceBalance(init, user)
               && forall beat: Op :: beat.Heartbeat? && beat.name == user ==>
                    var u := UserOf(Run(EMPTY, init), user);
                    Charge(u, beat.machine, beat.now, beat.maxGap) == TraceCharge(init, beat)
    ensures UserOf(Run(EMPTY, ops), user).balance == TraceBalance(ops, user)
  {
  }

  // ---------- Replaying the audit log ----------

  datatype Event = Logged(entry: GrantRecord) | Charged(user: string, seconds: int64)

  /** What one operation adds to the journal. */
  function EventOf(l: Ledger, op: Op): seq<Event> {
    if op.Heartbeat? then
      ChargeInRange(UserOf(l, op.name), op.machine, op.now, op.maxGap);
      [Charged(op.name, -Charge(UserOf(l, op.name), op.machine, op.now, op.maxGap))]
    else if Entry(l, op) == [] then []
    else [Logged(Entry(l, op)[0])]
  }

  /** What a run does to balances: its audit records, and its charges between them. */
  function Journal(ops: seq<Op>): seq<Event> {
    if ops == [] then []
    else Journal(ops[..|ops| - 1]) + EventOf(Run(EMPTY, ops[..|ops| - 1]), ops[|ops| - 1])
  }

  function Records(events: seq<Event>): seq<GrantRecord> {
    if events == [] then []
    else
      var init, e := events[..|events| - 1], events[|events| - 1];
      Records(init) + (if e.Logged? then [e.entry] else [])
  }

  /** The signed changes the events make to one user's balance. */
  function Deltas(events: seq<Event>, user: string): seq<int64> {
    if events == [] then []
    else
      var init, e := events[..|events| - 1], events[|events| - 1];
      Deltas(init, user) +
      match e
      case Logged(entry) => if entry.user == user then [entry.seconds] else []
      case Charged(who, seconds) => if who == user then [seconds] else []
  }

  /** Apply changes in order, each one through `Deposit`. */
  function Fold(balance: int64, deltas: seq<int64>): int64 {
    if deltas == [] then balance
    else Deposit(Fold(balance, deltas[..|deltas| - 1]), deltas[|deltas| - 1])
  }

  function Owner(e: Event): string {
    if e.Logged? then e.entry.user else e.user
  }

  function Delta(e: Event): int64 {
    if e.Logged? then e.entry.seconds else e.seconds
  }

  /** An event's change is the change of the operation it stands for. */
  lemma EventIsTheChange(l: Ledger, op: Op, user: string)
    requires Sound(l)
    ensures var before, after := UserOf(l, user).balance, UserOf(Next(l, op), user).balance;
            if EventOf(l, op) == [] || Owner(EventOf(l, op)[0]) != user then after == before
            else after == Deposit(before, Delta(EventOf(l, op)[0]))
  {
    if op.SetBalance? {
      SetIsGrantOfDelta(UserOf(l, op.name), op.seconds);
    }
  }

  lemma Appended(events: seq<Event>, e: Event, user: string)
    ensures Records(events + [e]) == Records(events) + (if e.Logged? then [e.entry] else [])
    ensures var before := Fold(0, Deltas(events, user));
            Fold(0, Deltas(events + [e], user)) == if Owner(e) == user then Deposit(before, Delta(e)) else before
  {
    assert (events + [e])[..|events + [e]| - 1] == events;
    var ds := Deltas(events, user);
    assert (ds + [Delta(e)])[..|ds + [Delta(e)]| - 1] == ds;
    assert Deltas(events + [e], user) == ds + [Delta(e)] || Deltas(events + [e], user) == ds;
  }

  lemma StepReplays(events: seq<Event>, l: Ledger, op: Op, user: string)
    requires Sound(l)
    requires Records(events) == l.log && Fold(0, Deltas(events, user)) == UserOf(l, user).balance
    ensures Records(events + EventOf(l, op)) == Next(l, op).log
    ensures Fold(0, Deltas(events + EventOf(l, op), user)) == UserOf(Next(l, op), user).balance
  {
    EventIsTheChange(l, op, user);
    EventIsTheRecord(l, op);
    if EventOf(l, op) == [] {
      assert events + [] == events;
    } else {
      Appended(events, EventOf(l, op)[0], user);
      assert EventOf(l, op) == [EventOf(l, op)[0]];
    }
  }

  /** An event's record is the one the operation appends. */
  lemma EventIsTheRecord(l: Ledger, op: Op)
    ensures var events := EventOf(l, op);
            && |events| <= 1
            && Next(l, op).log == l.log + (if events != [] && events[0].Logged? then [events[0].entry] else [])
  {
    assert l.log + [] == l.log;
  }

  /** The records of the journal are the audit log, and replaying the journal gives every
      user's balance. */
  lemma {:induction false} ReplayReproducesBalances(ops: seq<Op>, user: string)
    ensures Records(Journal(ops)) == Run(EMPTY, ops).log
    ensures Fold(0, Deltas(Journal(ops), user)) == UserOf(Run(EMPTY, ops), user).balance
  {
    if ops != [] {
      var init := ops[..|ops| - 1];
      ReplayReproducesBalances(init, user);
      RunKeepsSound(EMPTY, init);
      StepReplays(Journal(init), Run(EMPTY, init), ops[|ops| - 1], user);
    }
  }

  // ---------- The closed form of a clamped balance ----------

  function Sum(deltas: seq<int64>): int {
    if deltas == [] then 0 else Sum(deltas[..|deltas| - 1]) + deltas[|deltas| - 1]
  }

  /** No deposit along the way exceeds the 64-bit range. */
  predicate Fits(balance: int64, deltas: seq<int64>) {
    deltas == [] ||
    var init := deltas[..|deltas| - 1];
    Fits(balance, init) && Fold(balance, init) + deltas[|deltas| - 1] <= MAX
  }

  /** `r` is the greatest of the plain total and the sums of the changes after some point. */
  ghost predicate GreatestTail(r: int, balance: int, deltas: seq<int64>) {
    && r >= balance + Sum(deltas)
    && (forall k :: 0 <= k <= |deltas| ==> r >= Sum(deltas) - Sum(deltas[..k]))
    && (r == balance + Sum(deltas) || exists k :: 0 <= k <= |deltas| && r == Sum(deltas) - Sum(deltas[..k]))
  }

  /** Clamping at every step loses exactly the worst debt the changes would have run up. */
  lemma {:induction false} ClampedClosedForm(balance: int64, deltas: seq<int64>)
    requires balance >= 0 && Fits(balance, deltas)
    ensures GreatestTail(Fold(balance, deltas), balance, deltas)
  {
    var n := |deltas|;
    assert deltas[..n] == deltas;
    if n > 0 {
      var init, d := deltas[..n - 1], deltas[n - 1];
      ClampedClosedForm(balance, init);
      var before, r := Fold(balance, init), Fold(balance, deltas);
      assert forall k :: 0 <= k < n ==> init[..k] == deltas[..k];
      assert r == Max(before + d, 0) && Sum(deltas) == Sum(init) + d;
      forall k | 0 <= k <= n ensures r >= Sum(deltas) - Sum(deltas[..k]) {
        if k < n {
          assert before >= Sum(init) - Sum(init[..k]);
        }
      }
      if r == 0 {
        assert r == Sum(deltas) - Sum(deltas[..n]);
      } else if before != balance + Sum(init) {
        var k :| 0 <= k <= n - 1 && before == Sum(init) - Sum(init[..k]);
        assert r == Sum(deltas) - Sum(deltas[..k]);
      }
    }
  }

  lemma OverflowBreaksClosedForm(balance: int64, init: seq<int64>, d: int64)
    requires balance >= 0 && Fits(balance, init) && Fold(balance, init) + d > MAX
    ensures !GreatestTail(Fold(balance, init + [d]), balance, init + [d])
  {
    ClampedClosedForm(balance, init);
    var deltas := init + [d];
    assert deltas[..|init|] == init;
    var before := Fold(balance, init);
    if before != balance + Sum(init) {
      var k :| 0 <= k <= |init| && before == Sum(init) - Sum(init[..k]);
      assert deltas[..k] == init[..k];
      assert Sum(deltas) - Sum(deltas[..k]) == before + d;
    }
  }

  ghost predicate ClosedFormUpTo(balance: int64, deltas: seq<int64>, n: nat) {
    forall k :: 0 <= k <= n <= |deltas| ==> GreatestTail(Fold(balance, deltas[..k]), balance, deltas[..k])
  }

  /** The closed form describes the balance after every change exactly when no deposit
      overflows. */
  lemma {:induction false} ClosedFormExactly(balance: int64, deltas: seq<int64>, n: nat)
    requires balance >= 0 && n <= |deltas|
    ensures ClosedFormUpTo(balance, deltas, n) <==> Fits(balance, deltas[..n])
  {
    if n == 0 {
      ClampedClosedForm(balance, deltas[..0]);
    } else {
      ClosedFormExactly(balance, deltas, n - 1);
      var init, d := deltas[..n - 1], deltas[n - 1];
      assert deltas[..n] == init + [d] && (init + [d])[..n - 1] == init;
      if Fits(balance, init) {
        if Fits(balance, deltas[..n]) {
          ClampedClosedForm(balance, deltas[..n]);
        } else {
          OverflowBreaksClosedForm(balance, init, d);
        }
      } else {
        var k :| 0 <= k <= n - 1 && !GreatestTail(Fold(balance, deltas[..k]), balance, deltas[..k]);
      }
    }
  }

  /** Whenever a deposit overflows the larger of two balances, it overflows the smaller. */
  predicate OverflowTogether(low: int64, high: int64, deltas: seq<int64>) {
    deltas == [] ||
    var init, d := deltas[..|deltas| - 1], deltas[|deltas| - 1];
    OverflowTogether(low, high, init) && (Fold(high, init) + d > MAX ==> Fold(low, init) + d > MAX)
  }

  /** Then a larger starting balance ends no smaller, and never ahead by more than its lead. */
  lemma {:induction false} FoldIsMonotoneAndLipschitz(low: int64, high: int64, deltas: seq<int64>)
    requires 0 <= low <= high && OverflowTogether(low, high, deltas)
    ensures 0 <= Fold(low, deltas) <= Fold(high, deltas) <= Fold(low, deltas) + (high - low)
  {
    if deltas != [] {
      FoldIsMonotoneAndLipschitz(low, high, deltas[..|deltas| - 1]);
    }
  }

  /** A run of deposits without an overflow is one case of it. */
  lemma {:induction false} FittingOverflowTogether(low: int64, high: int64, deltas: seq<int64>)
    requires 0 <= low <= high && Fits(high, deltas)
    ensures OverflowTogether(low, high, deltas) && Fits(low, deltas)
  {
    if deltas != [] {
      FittingOverflowTogether(low, high, deltas[..|deltas| - 1]);
      FoldIsMonotoneAndLipschitz(low, high, deltas[..|deltas| - 1]);
    }
  }

  ghost predicate InOrderUpTo(low: int64, high: int64, deltas: seq<int64>, n: nat) {
    forall k :: 0 <= k <= n <= |deltas| ==> Fold(low, deltas[..k]) <= Fold(high, deltas[..k])
  }

  /** The order of two balances survives every change exactly when they overflow together. */
  lemma {:induction false} OrderKeptExactly(low: int64, high: int64, deltas: seq<int64>, n: nat)
    requires 0 <= low <= high && n <= |deltas|
    ensures InOrderUpTo(low, high, deltas, n) <==> OverflowTogether(low, high, deltas[..n])
  {
    if n == 0 {
      assert deltas[..0] == [];
    } else {
      OrderKeptExactly(low, high, deltas, n - 1);
      var init := deltas[..n - 1];
      assert deltas[..n][..n - 1] == init;
      if OverflowTogether(low, high, init) {
        FoldIsMonotoneAndLipschitz(low, high, init);
        assert InOrderUpTo(low, high, deltas, n) <==> Fold(low, deltas[..n]) <= Fold(high, deltas[..n]);
      } else {
        var k :| 0 <= k <= n - 1 && Fold(low, deltas[..k]) > Fold(high, deltas[..k]);
      }
    }
  }

  // ---------- One session ----------

  /** The account after beats of one machine at `times`. */
  function BeatAll(u: Account, machine: string, times: seq<Time>, maxGap: int64): Account {
    if times == [] then u
    else Beaten(BeatAll(u, machine, times[..|times| - 1], maxGap), machine, times[|times| - 1], maxGap)
  }

  function TimeBefore<T>(start: T, times: seq<T>): T {
    if times == [] then start else times[|times| - 1]
  }

  ghost predicate Nondecreasing(start: int, times: seq<int>) {
    times == [] ||
    (TimeBefore(start, times[..|times| - 1]) <= times[|times| - 1] && Nondecreasing(start, times[..|times| - 1]))
  }

  ghost predicate NoGapOver(start: int, times: seq<int>, maxGap: int) {
    times == [] ||
    var init := times[..|times| - 1];
    times[|times| - 1] - TimeBefore(start, init) <= maxGap && NoGapOver(start, init, maxGap)
  }

  /** The sum of the per-beat charges, in seconds. */
  function Nominal(start: int, times: seq<int>, maxGap: int): int {
    if times == [] then 0
    else Nominal(start, times[..|times| - 1], maxGap)
         + Seconds(Min(Max(times[|times| - 1] - TimeBefore(start, times[..|times| - 1]), 0), maxGap))
  }

  /** The gaps between these times are what `clock` shows. */
  ghost predicate Measures(clock: Time -> int, start: Time, times: seq<Time>) {
    times == [] ||
    var init, last := times[..|times| - 1], times[|times| - 1];
    var before := TimeBefore(start, init);
    Measures(clock, start, init) && Sub(last, before) == SaturatingSub(clock(last), clock(before))
  }

  function WallOf(t: Time): int {
    t.wall
  }

  function ReadingOf(t: Time): int {
    if t.reading.Mono? then t.reading.value else t.wall
  }

  /** Within one run of the server the monotonic clock measures every session. */
  lemma {:induction false} MonotonicMeasures(start: Time, times: seq<Time>)
    requires start.reading.Mono? && forall i :: 0 <= i < |times| ==> times[i].reading.Mono?
    ensures Measures(ReadingOf, start, times)
  {
    if times != [] {
      MonotonicMeasures(start, times[..|times| - 1]);
    }
  }

  /** While it is not set, the wall clock does, read or not, restarted or not. */
  lemma {:induction false} WallMeasures(start: Time, times: seq<Time>, offsets: iset<int>)
    requires AtMostOne(offsets) && ReadsBy(start, offsets)
    requires forall i :: 0 <= i < |times| ==> ReadsBy(times[i], offsets)
    ensures Measures(WallOf, start, times)
  {
    if times != [] {
      var init := times[..|times| - 1];
      WallMeasures(start, init, offsets);
      OneOffsetSubtractsPlain(times[|times| - 1], TimeBefore(start, init));
    }
  }

  /** A session that is still allowed at the end has paid its nominal charge in full, by
      any clock that measures its gaps. */
  lemma {:induction false} SessionPaysNominal(u: Account, machine: string, times: seq<Time>, maxGap: int64,
                                              clock: Time -> int)
    requires u.active && u.machine == machine && u.balance >= 0 && maxGap >= 0
    requires Measures(clock, u.lastSeen, times)
    ensures BeatAll(u, machine, times, maxGap).balance >= 0
    ensures var v := BeatAll(u, machine, times, maxGap);
            v.balance > 0 ==>
              && v.active && v.machine == machine && v.lastSeen == TimeBefore(u.lastSeen, times)
              && u.balance - v.balance == Nominal(clock(u.lastSeen), Seqs.Mapped(clock, times), maxGap)
  {
    if times != [] {
      var init, last := times[..|times| - 1], times[|times| - 1];
      SessionPaysNominal(u, machine, init, maxGap, clock);
      ChargeInRange(BeatAll(u, machine, init, maxGap), machine, last, maxGap);
      assert Seqs.Mapped(clock, times)[..|times| - 1] == Seqs.Mapped(clock, init);
    }
  }

  /** The charge never exceeds the capped beats nor the whole seconds spanned, and with no
      gap over the cap it falls short of the span by less than a second a beat. */
  lemma {:induction false} NominalBounds(start: int, times: seq<int>, maxGap: int)
    requires maxGap >= 0 && Nondecreasing(start, times)
    ensures 0 <= Nominal(start, times, maxGap) <= |times| * (maxGap / SECOND)
    ensures start <= TimeBefore(start, times)
    ensures Nominal(start, times, maxGap) <= (TimeBefore(start, times) - start) / SECOND
    ensures NoGapOver(start, times, maxGap) ==>
              TimeBefore(start, times) - start - Nominal(start, times, maxGap) * SECOND <= |times| * (SECOND - 1)
  {
    if times != [] {
      var init := times[..|times| - 1];
      NominalBounds(start, init, maxGap);
      var gap := times[|times| - 1] - TimeBefore(start, init);
      assert Seconds(Min(gap, maxGap)) <= maxGap / SECOND;
      assert |times| * (maxGap / SECOND) == |init| * (maxGap / SECOND) + maxGap / SECOND;
    }
  }

  /** One more beat inside an uncapped gap never raises the charge and lowers it by at
      most one second. */
  lemma {:induction false} ExtraBeat(start: int, before: seq<int>, extra: int, after: seq<int>, maxGap: int)
    requires maxGap >= 0 && after != []
    requires TimeBefore(start, before) <= extra <= after[0] && after[0] - TimeBefore(start, before) <= maxGap
    ensures var plain := Nominal(start, before + after, maxGap);
            var split := Nominal(start, before + [extra] + after, maxGap);
            plain - 1 <= split <= plain
  {
    var n := |after| - 1;
    assert (before + after)[..|before| + n] == before + after[..n];
    assert (before + [extra] + after)[..|before| + 1 + n] == before + [extra] + after[..n];
    if n == 0 {
      assert before + after[..n] == before && before + [extra] + after[..n] == before + [extra];
      assert (before + [extra])[..|before|] == before;
    } else {
      ExtraBeat(start, before, extra, after[..n], maxGap);
    }
  }
}
