/** `MigrateBalances` of `internal/store/open.go`, between stores of either engine. */
module Migration {
  import opened Accounting
  import opened Times
  import opened Ledger
  import opened Conformance
  import opened Stores
  import Names
  import JsonStore
  import SqlStore

  /** The writes that copying a listing makes; `clock(i)` is the time read by the i-th. */
  function Copies(list: seq<Status>, clock: nat -> Time): (ops: seq<Op>)
    ensures |ops| == |list|
  {
    seq(|list|, i requires 0 <= i < |list| =>
      Op.SetBalance(list[i].user, list[i].remaining, "migration", clock(i)))
  }

  /** The fault of a write that the destination meets. */
  predicate Meets(dst: Stores.Store, f: Faults) {
    if dst.Json? then !f.json.NoFault? else !f.sql.NoFault?
  }

  /** `done` writes have changed the destination: all of `n`, or those up to the first that
      met a fault, which JSON memory keeps and a table does not. */
  ghost predicate StoppedAt(dst: Stores.Store, n: nat, faults: nat -> Faults, failed: bool, done: nat) {
    if failed
    then exists f: nat :: f < n && NoneMet(dst, f, faults) && Meets(dst, faults(f)) && done == DoneAt(dst, f)
    else done == n && NoneMet(dst, n, faults)
  }

  ghost predicate NoneMet(dst: Stores.Store, n: nat, faults: nat -> Faults) {
    forall i: nat :: i < n ==> !Meets(dst, faults(i))
  }

  function DoneAt(dst: Stores.Store, f: nat): nat {
    if dst.Json? then f + 1 else f
  }

  /** List the source, then copy every balance, stopping at the first error. */
  method MigrateBalances(dst: Stores.Store, src: Stores.Store, now: Time, clock: nat -> Time,
                         scan: SqlStore.ScanFault, faults: nat -> Faults)
    returns (copied: nat, failed: bool, ghost list: seq<Status>, ghost done: nat)
    requires dst.Valid() && src.Valid()
    modifies dst.Footprint()
    ensures dst.Valid()
    ensures done <= |list| && dst.Abs() == dst.RunOf(old(dst.Abs()), Copies(list, clock)[..done])
    ensures list == [] || IsListing(old(src.Abs()).users, now, list)
    ensures copied == if failed then 0 else |old(src.Abs()).users|
    ensures if old(src.Fails(src.Abs(), ListAll(now), Faults(JsonStore.NoFault, SqlStore.NoFault, scan)))
            then failed && list == [] && done == 0
            else |list| == |old(src.Abs()).users| && StoppedAt(dst, |list|, faults, failed, done)
    ensures !failed && Sound(Ledger(old(src.Abs()).users, [])) ==>
              Copied(old(dst.Abs()), dst.Abs(), old(src.Abs()).users.Keys, old(src.Abs()).users)
  {
    var listed;
    listed, failed := ListOf(src, now, scan);
    if failed {
      return 0, true, [], 0;
    }
    list := listed;
    assert dst.Abs() == old(dst.Abs()) && src.Abs() == old(src.Abs());
    copied, failed, done := CopyListing(dst, listed, clock, faults, src.Abs().users, now);
  }

  method CopyListing(dst: Stores.Store, list: seq<Status>, clock: nat -> Time, faults: nat -> Faults,
                     ghost users: map<string, Account>, ghost now: Time)
    returns (copied: nat, failed: bool, ghost done: nat)
    requires dst.Valid() && IsListing(users, now, list)
    modifies dst.Footprint()
    ensures dst.Valid() && done <= |list|
    ensures dst.Abs() == dst.RunOf(old(dst.Abs()), Copies(list, clock)[..done])
    ensures |list| == |users| && copied == (if failed then 0 else |users|)
    ensures StoppedAt(dst, |list|, faults, failed, done)
    ensures !failed && Sound(Ledger(users, [])) ==> Copied(old(dst.Abs()), dst.Abs(), users.Keys, users)
  {
    ghost var before := dst.Abs();
    if dst.Sql? {
      TableTimesAreStorable(dst.sql);
    }
    ListingLength(users, now, list);
    copied, failed, done := CopyAll(dst, list, clock, faults);
    if !failed && Sound(Ledger(users, [])) {
      assert Copies(list, clock)[..|list|] == Copies(list, clock);
      FullCopy(dst, before, users, now, list, clock);
    }
  }

  lemma ListingLength(users: map<string, Account>, now: Time, list: seq<Status>)
    requires IsListing(users, now, list)
    ensures |list| == |users|
  {
    assert |multiset(list)| == |multiset(ListingAt(users, now))|;
  }

  method CopyEntry(dst: Stores.Store, op: Op, faults: Faults) returns (failed: bool)
    requires dst.Valid() && op.SetBalance?
    modifies dst.Footprint()
    ensures dst.Valid() && forall o :: o in dst.Footprint() ==> o in old(dst.Footprint()) || fresh(o)
    ensures failed <==> Meets(dst, faults)
    ensures dst.Abs() == if failed && dst.Sql? then old(dst.Abs()) else dst.Step(old(dst.Abs()), op)
  {
    var _, err := dst.Call(op, faults);
    failed := err;
  }

  method CopyAll(dst: Stores.Store, list: seq<Status>, clock: nat -> Time, faults: nat -> Faults)
    returns (copied: nat, failed: bool, ghost done: nat)
    requires dst.Valid()
    modifies dst.Footprint()
    ensures dst.Valid() && done <= |list|
    ensures dst.Abs() == dst.RunOf(old(dst.Abs()), Copies(list, clock)[..done])
    ensures copied == (if failed then 0 else |list|) && StoppedAt(dst, |list|, faults, failed, done)
  {
    ghost var ops, start := Copies(list, clock), dst.Abs();
    for i := 0 to |list|
      invariant dst.Valid() && forall o :: o in dst.Footprint() ==> o in old(dst.Footprint()) || fresh(o)
      invariant dst.Abs() == dst.RunOf(start, ops[..i])
      invariant NoneMet(dst, i, faults)
    {
      RunStep(dst, start, ops, i);
      var op := Op.SetBalance(list[i].user, list[i].remaining, "migration", clock(i));
      var err := CopyEntry(dst, op, faults(i));
      if err {
        return 0, true, DoneAt(dst, i);
      }
    }
    return |list|, false, |list|;
  }

  /** `m` is `l` with the balances of `done` copied from `users` and nothing else changed. */
  ghost predicate Copied(l: Ledger, m: Ledger, done: set<string>, users: map<string, Account>)
    requires done <= users.Keys
  {
    && (forall n :: n in m.users <==> n in l.users || n in done)
    && (forall n :: n in m.users ==>
         m.users[n] == if n in done then UserOf(l, n).(balance := users[n].balance) else l.users[n])
  }

  lemma CopyOne(dst: Stores.Store, l: Ledger, m: Ledger, done: set<string>, users: map<string, Account>, op: Op)
    requires dst.Sql? ==> AllStorable(l)
    requires done <= users.Keys && Copied(l, m, done, users)
    requires op.SetBalance? && op.name in users.Keys - done && op.seconds == users[op.name].balance >= 0
    ensures Copied(l, dst.Step(m, op), done + {op.name}, users)
    ensures |dst.Step(m, op).log| == |m.log| + 1
  {
    var u := UserOf(l, op.name).(balance := op.seconds);
    LoadOfSave(u);
    assert UserOf(m, op.name) == UserOf(l, op.name);
    assert dst.Step(m, op).users == m.users[op.name := u];
  }

  /** The users named by a run of writes. */
  function Written(ops: seq<Op>): set<string> {
    if ops == [] then {}
    else
      var op := ops[|ops| - 1];
      Written(ops[..|ops| - 1]) + (if Writes(op) then {op.name} else {})
  }

  /** Writes of distinct source users, each with its source balance. */
  ghost predicate CopiesOf(ops: seq<Op>, users: map<string, Account>) {
    ops == [] ||
    var init, op := ops[..|ops| - 1], ops[|ops| - 1];
    && CopiesOf(init, users)
    && op.SetBalance? && op.name in users.Keys - Written(init) && op.seconds == users[op.name].balance >= 0
  }

  lemma {:induction false} ListingIsCopied(users: map<string, Account>, names: seq<string>, ops: seq<Op>)
    requires forall n :: n in users ==> users[n].balance >= 0
    requires Names.StrictlyIncreasing(names) && |ops| == |names|
    requires forall i :: 0 <= i < |ops| ==>
               && names[i] in users && ops[i].SetBalance?
               && ops[i].name == names[i] && ops[i].seconds == users[names[i]].balance
    ensures CopiesOf(ops, users)
    ensures forall n :: n in Written(ops) <==> n in names
  {
    if ops != [] {
      var k := |ops| - 1;
      ListingIsCopied(users, names[..k], ops[..k]);
      if names[k] in names[..k] {
        Names.BeforeIrreflexive(names[k]);
        assert false;
      }
      assert names == names[..k] + [names[k]];
    }
  }

  lemma {:induction false} CopiesCopy(dst: Stores.Store, l: Ledger, users: map<string, Account>, ops: seq<Op>)
    requires dst.Sql? ==> AllStorable(l)
    requires CopiesOf(ops, users)
    ensures Written(ops) <= users.Keys && Copied(l, dst.RunOf(l, ops), Written(ops), users)
    ensures |dst.RunOf(l, ops).log| == |l.log| + |ops|
  {
    if ops != [] {
      var init, op := ops[..|ops| - 1], ops[|ops| - 1];
      CopiesCopy(dst, l, users, init);
      CopyOne(dst, l, dst.RunOf(l, init), Written(init), users, op);
    }
  }

  lemma ListingCopies(users: map<string, Account>, now: Time, clock: nat -> Time)
    requires Sound(Ledger(users, []))
    ensures var ops := Copies(ListingAt(users, now), clock); CopiesOf(ops, users) && Written(ops) == users.Keys
  {
    ListingIsCopied(users, Names.Sorted(users.Keys), Copies(ListingAt(users, now), clock));
  }

  /** What a run of settings adds to the log: a record for each, with the prefixed reason. */
  lemma {:induction false} SettingsLog(dst: Stores.Store, l: Ledger, ops: seq<Op>)
    requires forall i :: 0 <= i < |ops| ==> ops[i].SetBalance?
    ensures var log := dst.RunOf(l, ops).log;
            && |log| == |l.log| + |ops| && log[..|l.log|] == l.log
            && forall i :: 0 <= i < |ops| ==>
                 log[|l.log| + i].user == ops[i].name && log[|l.log| + i].reason == "set: " + ops[i].reason
  {
    if ops != [] {
      SettingsLog(dst, l, ops[..|ops| - 1]);
    }
  }

  /** Copying gives each source user the source balance, keeps the session fields of users
      the destination knew and leaves everyone else alone. */
  lemma MigrationCopiesBalances(dst: Stores.Store, l: Ledger, users: map<string, Account>,
                                now: Time, clock: nat -> Time)
    requires Sound(Ledger(users, [])) && (dst.Sql? ==> AllStorable(l))
    ensures var m := dst.RunOf(l, Copies(ListingAt(users, now), clock));
            Copied(l, m, users.Keys, users) && |m.log| == |l.log| + |users|
  {
    ListingCopies(users, now, clock);
    CopiesCopy(dst, l, users, Copies(ListingAt(users, now), clock));
  }

  /** It logs one record a listed user, marked as a migration, after those already there. */
  lemma MigrationLogs(dst: Stores.Store, l: Ledger, list: seq<Status>, clock: nat -> Time)
    ensures var log := dst.RunOf(l, Copies(list, clock)).log;
            && |log| == |l.log| + |list| && log[..|l.log|] == l.log
            && forall i :: |l.log| <= i < |log| ==>
                 log[i].user == list[i - |l.log|].user && log[i].reason == "set: migration"
  {
    var ops := Copies(list, clock);
    SettingsLog(dst, l, ops);
    var log := dst.RunOf(l, ops).log;
    forall i | |l.log| <= i < |log|
      ensures log[i].user == list[i - |l.log|].user && log[i].reason == "set: migration"
    {
      assert log[|l.log| + (i - |l.log|)].user == ops[i - |l.log|].name;
      assert ops[i - |l.log|].reason == "migration";
    }
  }

  lemma FullCopy(dst: Stores.Store, l: Ledger, users: map<string, Account>,
                 now: Time, list: seq<Status>, clock: nat -> Time)
    requires Sound(Ledger(users, [])) && (dst.Sql? ==> AllStorable(l)) && IsListing(users, now, list)
    ensures Copied(l, dst.RunOf(l, Copies(list, clock)), users.Keys, users)
  {
    ListingIsUnique(users, now, list);
    MigrationCopiesBalances(dst, l, users, now, clock);
  }

  /** A second migration of the same balances, at any later time and clock, changes no
      account, and every record it logs is a zero. */
  lemma MigratingAgainChangesNothing(dst: Stores.Store, l: Ledger, users: map<string, Account>,
                                     now: Time, clock: nat -> Time, now2: Time, clock2: nat -> Time)
    requires Sound(Ledger(users, [])) && (dst.Sql? ==> AllStorable(l))
    ensures var m := dst.RunOf(l, Copies(ListingAt(users, now), clock));
            var again := dst.RunOf(m, Copies(ListingAt(users, now2), clock2));
            && again.users == m.users
            && |again.log| == |m.log| + |users|
            && forall i :: |m.log| <= i < |again.log| ==> again.log[i].seconds == 0
  {
    var m := dst.RunOf(l, Copies(ListingAt(users, now), clock));
    MigrationCopiesBalances(dst, l, users, now, clock);
    CopiesSettle(dst, l, m, users, now2, clock2);
    SettledWritesAreZero(dst, m, Copies(ListingAt(users, now2), clock2));
  }

  lemma CopiesSettle(dst: Stores.Store, l: Ledger, m: Ledger, users: map<string, Account>,
                     now: Time, clock: nat -> Time)
    requires Sound(Ledger(users, [])) && (dst.Sql? ==> AllStorable(l))
    requires Copied(l, m, users.Keys, users)
    ensures var ops := Copies(ListingAt(users, now), clock); forall i :: 0 <= i < |ops| ==> Settled(dst, m, ops[i])
  {
    var ops, names := Copies(ListingAt(users, now), clock), Names.Sorted(users.Keys);
    forall i | 0 <= i < |ops| ensures Settled(dst, m, ops[i]) {
      assert names[i] in users && ops[i].name == names[i];
      assert m.users[names[i]] == UserOf(l, names[i]).(balance := ops[i].seconds);
    }
  }

  /** A write that sets a stored account to the balance it has. */
  ghost predicate Settled(dst: Stores.Store, l: Ledger, op: Op) {
    && op.SetBalance? && op.name in l.users && l.users[op.name].balance == op.seconds >= 0
    && (dst.Sql? ==> SqlStore.StoredAccount(l.users[op.name]) == l.users[op.name])
  }

  lemma {:induction false} SettledWritesAreZero(dst: Stores.Store, l: Ledger, ops: seq<Op>)
    requires forall i :: 0 <= i < |ops| ==> Settled(dst, l, ops[i])
    ensures var again := dst.RunOf(l, ops);
            && again.users == l.users
            && |again.log| == |l.log| + |ops|
            && forall i :: |l.log| <= i < |again.log| ==> again.log[i].seconds == 0
  {
    if ops != [] {
      SettledWritesAreZero(dst, l, ops[..|ops| - 1]);
      var op := ops[|ops| - 1];
      assert Settled(dst, l, op);
      LoadOfSave(l.users[op.name]);
    }
  }
}
