/** The two engines against each other: exactly when they give the same answers. */
module Conformance {
  import opened Int64
  import opened Accounting
  import opened Times
  import opened Ledger
  import opened SqlStore
  import Names

  /** The instants the users table can hold: the zero time, and every 64-bit nanosecond
      count other than the sentinel. */
  predicate Storable(wall: int) {
    wall == ZERO.wall || (MIN <= wall <= MAX && wall != 0)
  }

  /** Saving then loading an account gives it back exactly for a storable time without a
      clock reading, and for no other; all it loses at a storable time is the reading. */
  lemma LoadOfSave(u: Account)
    ensures StoredAccount(u) == u <==> Storable(u.lastSeen.wall) && u.lastSeen.reading.NoReading?
    ensures StoredAccount(u) == PlainAccount(u) <==> Storable(u.lastSeen.wall)
    ensures var t := StoredTime(u.lastSeen); Storable(t.wall) && t.reading.NoReading?
  {
  }

  function StoredRun(l: Ledger, ops: seq<Op>): Ledger {
    if ops == [] then l else StoredNext(StoredRun(l, ops[..|ops| - 1]), ops[|ops| - 1])
  }

  ghost function StoredAnswers(l: Ledger, ops: seq<Op>): seq<Reply> {
    if ops == [] then []
    else StoredAnswers(l, ops[..|ops| - 1]) + [Answer(StoredRun(l, ops[..|ops| - 1]), ops[|ops| - 1])]
  }

  lemma StoredRunSnoc(l: Ledger, ops: seq<Op>, op: Op)
    ensures StoredRun(l, ops + [op]) == StoredNext(StoredRun(l, ops), op)
    ensures StoredAnswers(l, ops + [op]) == StoredAnswers(l, ops) + [Answer(StoredRun(l, ops), op)]
  {
    assert (ops + [op])[..|ops + [op]| - 1] == ops;
  }

  predicate ReadsClock(op: Op) {
    op.Heartbeat? || op.StatusOf? || op.ListAll?
  }

  /** A beat happens at one of the instants `walls`, and the times of beats and queries read
      the monotonic clock at one of the offsets, if they read it at all. */
  ghost predicate ClockedOp(op: Op, walls: iset<int>, offsets: iset<int>) {
    (op.Heartbeat? ==> op.now.wall in walls) && (ReadsClock(op) ==> ReadsBy(op.now, offsets))
  }

  ghost predicate Clocked(ops: seq<Op>, walls: iset<int>, offsets: iset<int>) {
    forall i :: 0 <= i < |ops| ==> ClockedOp(ops[i], walls, offsets)
  }

  ghost predicate SomeBeat(walls: iset<int>) {
    exists w :: w in walls
  }

  /** Every instant is storable and, if there are beats at all, the wall clock is not set:
      there is at most one offset. */
  ghost predicate OneClock(walls: iset<int>, offsets: iset<int>) {
    (forall w :: w in walls ==> Storable(w)) && (SomeBeat(walls) ==> AtMostOne(offsets))
  }

  /** Every session of the ledger was last seen at the time of such a beat, or never. */
  ghost predicate SeenBy(l: Ledger, walls: iset<int>, offsets: iset<int>) {
    forall n :: n in l.users ==>
      && Storable(l.users[n].lastSeen.wall) && ReadsBy(l.users[n].lastSeen, offsets)
      && (l.users[n].lastSeen.reading.Mono? ==> SomeBeat(walls))
  }

  /** What the SQL engine holds where the JSON engine holds `l`. */
  function Stored(l: Ledger): Ledger {
    Ledger(PlainUsers(l.users), StoredRecords(l.log))
  }

  /** With storable beats and a wall clock that is not set, the SQL state is the JSON state
      but for the readings and the encoded times of the log, and every answer agrees. */
  lemma {:induction false} StorableRunsAgree(ops: seq<Op>, walls: iset<int>, offsets: iset<int>)
    requires OneClock(walls, offsets) && Clocked(ops, walls, offsets)
    ensures SeenBy(Run(EMPTY, ops), walls, offsets)
    ensures StoredRun(EMPTY, ops) == Stored(Run(EMPTY, ops))
    ensures StoredAnswers(EMPTY, ops) == Answers(EMPTY, ops)
  {
    if ops != [] {
      var init, op := ops[..|ops| - 1], ops[|ops| - 1];
      StorableRunsAgree(init, walls, offsets);
      assert ClockedOp(op, walls, offsets);
      StepsAgree(Run(EMPTY, init), op, walls, offsets);
    }
  }

  /** A rule applied to the plain account charges, answers and shows the same. */
  lemma PlainAgrees(u: Account, op: Op)
    requires ReadsClock(op) && op.now.reading.Mono? && u.lastSeen.reading.Mono? ==> Offset(op.now) == Offset(u.lastSeen)
    ensures PlainAccount(Touched(PlainAccount(u), op)) == PlainAccount(Touched(u, op))
    ensures Touched(PlainAccount(u), op).balance == Touched(u, op).balance
    ensures op.StatusOf? || op.ListAll? ==> StatusAt(PlainAccount(u), op.now) == StatusAt(u, op.now)
  {
    if ReadsClock(op) {
      OneOffsetSubtractsPlain(op.now, u.lastSeen);
    }
  }

  lemma SeenStays(l: Ledger, op: Op, walls: iset<int>, offsets: iset<int>)
    requires OneClock(walls, offsets) && SeenBy(l, walls, offsets) && ClockedOp(op, walls, offsets)
    ensures SeenBy(Next(l, op), walls, offsets)
  {
  }

  lemma WriteAgrees(l: Ledger, op: Op)
    requires Writes(op)
    requires var u := UserOf(l, op.name);
             && Storable(Touched(u, op).lastSeen.wall)
             && (op.Heartbeat? && op.now.reading.Mono? && u.lastSeen.reading.Mono? ==>
                  Offset(op.now) == Offset(u.lastSeen))
    ensures StoredNext(Stored(l), op) == Stored(Next(l, op)) && Answer(Stored(l), op) == Answer(l, op)
  {
    var u := UserOf(l, op.name);
    PlainAgrees(u, op);
    LoadOfSave(Touched(PlainAccount(u), op));
    PlainUpdated(l.users, op.name, Touched(u, op));
    RecordsAppended(l.log, Entry(l, op));
  }

  lemma PlainUpdated(users: map<string, Account>, name: string, v: Account)
    ensures PlainUsers(users[name := v]) == PlainUsers(users)[name := PlainAccount(v)]
  {
  }

  lemma RecordsAppended(log: seq<GrantRecord>, more: seq<GrantRecord>)
    ensures StoredRecords(log + more) == StoredRecords(log) + StoredRecords(more)
  {
  }

  lemma StepsAgree(l: Ledger, op: Op, walls: iset<int>, offsets: iset<int>)
    requires OneClock(walls, offsets) && SeenBy(l, walls, offsets) && ClockedOp(op, walls, offsets)
    ensures SeenBy(Next(l, op), walls, offsets) && StoredNext(Stored(l), op) == Stored(Next(l, op))
    ensures Answer(Stored(l), op) == Answer(l, op)
  {
    SeenStays(l, op, walls, offsets);
    if Writes(op) {
      assert Next(l, op).users[op.name] == Touched(UserOf(l, op.name), op);
      WriteAgrees(l, op);
    } else {
      forall n | n in l.users ensures StatusAt(PlainAccount(l.users[n]), op.now) == StatusAt(l.users[n], op.now) {
        PlainAgrees(l.users[n], op);
      }
      ReadAgrees(l, op);
    }
  }

  lemma ReadAgrees(l: Ledger, op: Op)
    requires op.StatusOf? || op.ListAll?
    requires forall n :: n in l.users ==> StatusAt(PlainAccount(l.users[n]), op.now) == StatusAt(l.users[n], op.now)
    ensures Answer(Stored(l), op) == Answer(l, op)
  {
    if op.ListAll? {
      ListingsAgree(PlainUsers(l.users), l.users, op.now);
    } else {
      assert op.name in l.users ==> PlainUsers(l.users)[op.name] == PlainAccount(l.users[op.name]);
    }
  }

  lemma ListingsAgree(a: map<string, Account>, b: map<string, Account>, now: Time)
    requires a.Keys == b.Keys && forall n :: n in b ==> StatusAt(a[n], now) == StatusAt(b[n], now)
    ensures ListingAt(a, now) == ListingAt(b, now)
  {
    StatusesAgree(a, b, Names.Sorted(b.Keys), now);
  }

  lemma StatusesAgree(a: map<string, Account>, b: map<string, Account>, names: seq<string>, now: Time)
    requires forall n :: n in names ==> n in a && n in b && StatusAt(a[n], now) == StatusAt(b[n], now)
    ensures StatusesOf(a, names, now) == StatusesOf(b, names, now)
  {
  }

  /** The two audit logs agree after trimming: the surviving rows in id order are the
      JSON slice, both the last `maxGrants` records of the whole history. */
  lemma TrimmedLogsAgree(ops: seq<Op>, walls: iset<int>, offsets: iset<int>,
                         rows: map<int, GrantRecord>, maxGrants: nat)
    requires OneClock(walls, offsets) && Clocked(ops, walls, offsets)
    requires var history := StoredRun(EMPTY, ops).log;
             && (forall id :: id in rows <==> Max(|history| - maxGrants, 0) < id <= |history|)
             && (forall id :: id in rows ==> rows[id] == history[id - 1])
    ensures RowsById(rows, 1, |Run(EMPTY, ops).log|) == StoredRecords(LastN(Run(EMPTY, ops).log, maxGrants))
  {
    StorableRunsAgree(ops, walls, offsets);
    RowsAreStoredRecords(rows, Run(EMPTY, ops).log, maxGrants);
  }

  lemma RowsAreStoredRecords(rows: map<int, GrantRecord>, log: seq<GrantRecord>, maxGrants: nat)
    requires forall id :: id in rows <==> Max(|log| - maxGrants, 0) < id <= |log|
    requires forall id :: id in rows ==> rows[id] == StoredRecords(log)[id - 1]
    ensures RowsById(rows, 1, |log|) == StoredRecords(LastN(log, maxGrants))
  {
    RowsAreLastRecords(rows, StoredRecords(log), maxGrants);
    StoredTrimmed(log, maxGrants);
  }

  lemma StoredTrimmed(log: seq<GrantRecord>, n: nat)
    ensures LastN(StoredRecords(log), n) == StoredRecords(LastN(log, n))
  {
  }

  /** Every session of the ledger was last seen at a time the table gives back exactly. */
  ghost predicate AllStorable(l: Ledger) {
    forall n :: n in l.users ==> Storable(l.users[n].lastSeen.wall) && l.users[n].lastSeen.reading.NoReading?
  }

  /** Whatever a users table holds, the times read from it are such times. */
  lemma TableTimesAreStorable(s: Store)
    ensures AllStorable(s.Abs())
  {
  }

  // ---------- Where they part ----------

  /** A user with time, one beat, one look at the dashboard. */
  ghost function Glance(beat: Time, look: Time): seq<Op> {
    [Grant("kid", 60, "chores", ZERO), Heartbeat("kid", "PC", beat, 0), StatusOf("kid", look)]
  }

  /** The dashboard tells the engines apart when the session is live in one of them only. */
  lemma GlanceTells(beat: Time, look: Time)
    requires (Sub(look, beat) <= PLAYING_WINDOW) != (Sub(look, StoredTime(beat)) <= PLAYING_WINDOW)
    ensures StoredAnswers(EMPTY, Glance(beat, look)) != Answers(EMPTY, Glance(beat, look))
  {
    var ops := Glance(beat, look);
    var l0 := Next(EMPTY, ops[0]);
    assert l0.users == map["kid" := NewAccount("kid").(balance := 60)];
    var s0 := StoredNext(EMPTY, ops[0]);
    assert s0.users == l0.users;
    RunSnoc(EMPTY, [], ops[0]);
    RunSnoc(EMPTY, [] + [ops[0]], ops[1]);
    RunSnoc(EMPTY, [] + [ops[0]] + [ops[1]], ops[2]);
    StoredRunSnoc(EMPTY, [], ops[0]);
    StoredRunSnoc(EMPTY, [] + [ops[0]], ops[1]);
    StoredRunSnoc(EMPTY, [] + [ops[0]] + [ops[1]], ops[2]);
    assert ops == [] + [ops[0]] + [ops[1]] + [ops[2]];
    var u := Account("kid", 60, "PC", beat, true);
    assert Next(l0, ops[1]).users["kid"] == u;
    assert StoredNext(s0, ops[1]).users["kid"] == StoredAccount(u);
    assert Answers(EMPTY, ops)[2] == Snapshot(StatusAt(u, look));
    assert StoredAnswers(EMPTY, ops)[2] == Snapshot(StatusAt(StoredAccount(u), look));
  }

  /** A look without a reading, timed by the later of the two instants a beat is remembered
      at. */
  function LateLook(beat: Time): Time {
    Time(Max(beat.wall, StoredTime(beat).wall) + PLAYING_WINDOW, NoReading)
  }

  /** It tells of any beat at an instant the table cannot hold. */
  lemma UnstorableBeatDiverges(beat: Time)
    requires !Storable(beat.wall)
    ensures StoredAnswers(EMPTY, Glance(beat, LateLook(beat))) != Answers(EMPTY, Glance(beat, LateLook(beat)))
  {
    LoadOfSave(Account("kid", 60, "PC", beat, true));
    GlanceTells(beat, LateLook(beat));
  }

  /** A look that reads the monotonic clock at `offset`, at an instant that ends the window
      by one clock and not by the other. */
  function LookBy(beat: Time, offset: int): Time
    requires beat.reading.Mono?
  {
    var wall := beat.wall + PLAYING_WINDOW + (if offset > Offset(beat) then 0 else 1);
    Time(wall, Mono(wall + offset))
  }

  /** It tells when the wall clock is set between the beat and the look: the JSON engine
      goes by the monotonic clock, the SQL engine by the wall clock. */
  lemma ClockSetDiverges(beat: Time, offset: int)
    requires Storable(beat.wall) && beat.reading.Mono? && offset != Offset(beat)
    ensures var ops := Glance(beat, LookBy(beat, offset)); StoredAnswers(EMPTY, ops) != Answers(EMPTY, ops)
  {
    LoadOfSave(Account("kid", 60, "PC", beat, true));
    GlanceTells(beat, LookBy(beat, offset));
  }

  /** A resumed beat is charged by the monotonic clock in one engine and by the wall clock in
      the other: the charges agree under every cap exactly when both clocks saw the same
      whole seconds pass. */
  lemma ChargesAgreeExactly(u: Account, now: Time)
    requires u.active && u.lastSeen.reading.Mono? && now.reading.Mono? && Storable(u.lastSeen.wall)
    ensures (forall maxGap: int64 ::
               Charge(StoredAccount(u), u.machine, now, maxGap) == Charge(u, u.machine, now, maxGap))
       <==> Elapsed(now.wall, u.lastSeen.wall) == Elapsed(now.reading.value, u.lastSeen.reading.value)
  {
    LoadOfSave(u);
    var plain := StoredAccount(u);
    if Elapsed(now.wall, u.lastSeen.wall) != Elapsed(now.reading.value, u.lastSeen.reading.value) {
      assert Charge(plain, u.machine, now, MAX) != Charge(u, u.machine, now, MAX);
    }
  }

  /** The whole seconds from `since` to `now`, as a charge without a cap counts them. */
  function Elapsed(now: int, since: int): int {
    Seconds(Max(SaturatingSub(now, since), 0))
  }

  /** The wall clock is stepped back 30 seconds between two beats 20 seconds apart: one
      engine charges 20 seconds and the other none. */
  lemma StepBackDiverges(u: Account, maxGap: int64)
    requires u.active && u.balance == 120 && u.lastSeen.reading.Mono? && Storable(u.lastSeen.wall)
    requires maxGap >= 20 * SECOND
    ensures var t := u.lastSeen;
            var now := Time(t.wall - 10 * SECOND, Mono(t.reading.value + 20 * SECOND));
            && Beaten(u, u.machine, now, maxGap).balance == 100
            && Beaten(StoredAccount(u), u.machine, now, maxGap).balance == 120
  {
    LoadOfSave(u);
  }

  /** The engines answer alike on every run whose beats fall on `walls` and whose times read
      the monotonic clock at `offsets` exactly when every one of these instants is storable
      and, if there are any, there is at most one offset. */
  lemma EnginesAgreeExactly(walls: iset<int>, offsets: iset<int>)
    ensures (forall ops :: Clocked(ops, walls, offsets) ==> StoredAnswers(EMPTY, ops) == Answers(EMPTY, ops))
       <==> OneClock(walls, offsets)
  {
    if OneClock(walls, offsets) {
      forall ops | Clocked(ops, walls, offsets) ensures StoredAnswers(EMPTY, ops) == Answers(EMPTY, ops) {
        StorableRunsAgree(ops, walls, offsets);
      }
    } else {
      var ops := DivergingRun(walls, offsets);
    }
  }

  lemma DivergingRun(walls: iset<int>, offsets: iset<int>) returns (ops: seq<Op>)
    requires !OneClock(walls, offsets)
    ensures Clocked(ops, walls, offsets) && StoredAnswers(EMPTY, ops) != Answers(EMPTY, ops)
  {
    if wall :| wall in walls && !Storable(wall) {
      UnstorableBeatDiverges(Time(wall, NoReading));
      ops := Glance(Time(wall, NoReading), LateLook(Time(wall, NoReading)));
    } else {
      var wall :| wall in walls;
      var a, b :| a in offsets && b in offsets && a != b;
      ops := ClockSetRun(wall, a, b);
      ClockedByMore(ops, iset{wall}, iset{a, b}, walls, offsets);
    }
  }

  lemma ClockSetRun(wall: int, a: int, b: int) returns (ops: seq<Op>)
    requires Storable(wall) && a != b
    ensures Clocked(ops, iset{wall}, iset{a, b}) && StoredAnswers(EMPTY, ops) != Answers(EMPTY, ops)
  {
    var beat := Time(wall, Mono(wall + a));
    ClockSetDiverges(beat, b);
    GlanceIsClocked(beat, LookBy(beat, b), iset{wall}, iset{a, b});
    ops := Glance(beat, LookBy(beat, b));
  }

  lemma ClockedByMore(ops: seq<Op>, walls: iset<int>, offsets: iset<int>, walls2: iset<int>, offsets2: iset<int>)
    requires Clocked(ops, walls, offsets) && walls <= walls2 && offsets <= offsets2
    ensures Clocked(ops, walls2, offsets2)
  {
    forall i | 0 <= i < |ops| ensures ClockedOp(ops[i], walls2, offsets2) {
      assert ClockedOp(ops[i], walls, offsets);
    }
  }

  lemma GlanceIsClocked(beat: Time, look: Time, walls: iset<int>, offsets: iset<int>)
    requires beat.wall in walls && ReadsBy(beat, offsets) && ReadsBy(look, offsets)
    ensures Clocked(Glance(beat, look), walls, offsets)
  {
  }
}
