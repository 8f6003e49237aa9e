/** The `Store` interface of `internal/store/store.go`: a call goes to whichever engine is
    behind it, and whole runs of calls against both. */
module Stores {
  import opened Ledger
  import opened Times
  import opened Conformance
  import opened Traces
  import Accounting
  import JsonStore
  import SqlStore

  /** The fault each engine would meet during a call. */
  datatype Faults = Faults(json: JsonStore.Fault, sql: SqlStore.Fault, scan: SqlStore.ScanFault)

  const NO_FAULTS := Faults(JsonStore.NoFault, SqlStore.NoFault, SqlStore.NoScanFault)

  datatype Store = Json(json: JsonStore.Store) | Sql(sql: SqlStore.Store)
  {
    ghost function Footprint(): set<object>
      reads if Json? then {json} else {}
    {
      if Json? then {json, json.disk} + json.users.Values else {sql}
    }

    ghost predicate Valid()
      reads Footprint()
    {
      if Json? then json.Valid() else sql.Valid()
    }

    ghost function Abs(): Ledger
      reads Footprint()
    {
      if Json? then json.Abs() else sql.Abs()
    }

    /** The audit log as the JSON engine keeps it is the end of the full history. */
    ghost predicate Trimmed()
      reads Footprint()
    {
      Json? ==> json.Trimmed()
    }

    function Step(l: Ledger, op: Op): Ledger {
      if Json? then Next(l, op) else SqlStore.StoredNext(l, op)
    }

    function RunOf(l: Ledger, ops: seq<Op>): Ledger {
      if Json? then Run(l, ops) else StoredRun(l, ops)
    }

    ghost function AnswersOf(l: Ledger, ops: seq<Op>): seq<Reply> {
      if Json? then Answers(l, ops) else StoredAnswers(l, ops)
    }

    /** The calls that fail: those that meet a fault of something they do. */
    predicate Fails(l: Ledger, op: Op, faults: Faults) {
      if Json? then Writes(op) && !faults.json.NoFault? else SqlFails(l, op, faults.sql, faults.scan)
    }

    /** One call. A failed one leaves the SQL rows alone, but the JSON memory changed. */
    method Call(op: Op, faults: Faults) returns (reply: Reply, failed: bool)
      requires Valid()
      modifies Footprint()
      ensures Valid() && (forall o :: o in Footprint() ==> o in old(Footprint()) || fresh(o))
      ensures Abs() == if failed && Sql? then old(Abs()) else Step(old(Abs()), op)
      ensures !failed && Named(old(Abs().users)) ==> reply == Answer(old(Abs()), op)
      ensures failed <==> Fails(old(Abs()), op, faults)
      ensures old(Trimmed()) ==> Trimmed()
    {
      if Json? {
        reply, failed := CallJson(json, op, faults.json);
      } else {
        reply, failed := CallSql(sql, op, faults.sql, faults.scan);
      }
    }
  }

  /** Both engines list each account once, in order of user. */
  method ListOf(s: Store, now: Time, scan: SqlStore.ScanFault) returns (out: seq<Accounting.Status>, failed: bool)
    requires s.Valid()
    ensures failed <==> s.Fails(s.Abs(), ListAll(now), Faults(JsonStore.NoFault, SqlStore.NoFault, scan))
    ensures !failed ==> IsListing(s.Abs().users, now, out)
  {
    if s.Json? {
      out := s.json.List(now);
      failed := false;
    } else {
      out, failed := s.sql.List(now, scan);
      if !failed {
        AnswerIsListing(s.Abs(), now, out);
      }
    }
  }

  method CallJson(s: JsonStore.Store, op: Op, fault: JsonStore.Fault) returns (reply: Reply, failed: bool)
    requires s.Valid()
    modifies s, s.users.Values, s.disk
    ensures s.Valid()
    ensures forall n :: n in s.users ==> s.users[n] in old(s.users.Values) || fresh(s.users[n])
    ensures s.Abs() == Next(old(s.Abs()), op)
    ensures !failed && Named(old(s.Abs().users)) ==> reply == Answer(old(s.Abs()), op)
    ensures failed <==> Writes(op) && !fault.NoFault?
    ensures old(s.Trimmed()) ==> s.Trimmed()
  {
    if Writes(op) {
      reply, failed := WriteJson(s, op, fault);
    } else {
      reply := ReadJson(s, op);
      failed := false;
    }
  }

  method ReadJson(s: JsonStore.Store, op: Op) returns (reply: Reply)
    requires s.Valid() && !Writes(op)
    ensures Named(s.Abs().users) ==> reply == Answer(s.Abs(), op)
  {
    if op.StatusOf? {
      reply := s.Status(op.name, op.now);
    } else {
      var out := s.List(op.now);
      reply := Listing(out);
    }
  }

  method WriteJson(s: JsonStore.Store, op: Op, fault: JsonStore.Fault) returns (reply: Reply, failed: bool)
    requires s.Valid() && Writes(op)
    modifies s, s.users.Values, s.disk
    ensures s.Wrote(op, fault, failed) && reply == Answer(old(s.Abs()), op)
    ensures old(s.Trimmed()) ==> s.Trimmed()
  {
    match op
    case EnsureUser(name) =>
      failed := s.EnsureUser(name, fault);
      reply := Done;
    case Grant(name, seconds, reason, at) =>
      var remaining;
      remaining, failed := s.Grant(name, seconds, reason, at, fault);
      reply := Remaining(remaining);
    case SetBalance(name, seconds, reason, at) =>
      var remaining;
      remaining, failed := s.SetBalance(name, seconds, reason, at, fault);
      reply := Remaining(remaining);
    case Heartbeat(name, machine, now, maxGap) =>
      var allowed, remaining;
      allowed, remaining, failed := s.Heartbeat(name, machine, now, maxGap, fault);
      reply := Beat(allowed, remaining);
  }

  predicate SqlFails(l: Ledger, op: Op, fault: SqlStore.Fault, scan: SqlStore.ScanFault) {
    match op
    case Grant(_, _, _, _) => !fault.NoFault?
    case SetBalance(_, _, _, _) => !fault.NoFault?
    case StatusOf(_, _) => scan.QueryFails?
    case ListAll(_) => scan.QueryFails? || scan.EndFails? || (scan.RowFails? && scan.row < |l.users|)
    case _ => fault.BeginFails? || fault.LoadFails? || fault.SaveFails? || fault.CommitFails?
  }

  method CallSql(s: SqlStore.Store, op: Op, fault: SqlStore.Fault, scan: SqlStore.ScanFault)
    returns (reply: Reply, failed: bool)
    requires s.Valid()
    modifies s
    ensures s.Valid()
    ensures s.Abs() == if failed then old(s.Abs()) else SqlStore.StoredNext(old(s.Abs()), op)
    ensures !failed ==> reply == Answer(old(s.Abs()), op)
    ensures failed <==> SqlFails(old(s.Abs()), op, fault, scan)
  {
    match op
    case EnsureUser(name) =>
      failed := s.EnsureUser(name, fault);
      reply := Done;
    case Grant(name, seconds, reason, at) =>
      var remaining;
      remaining, failed := s.Grant(name, seconds, reason, at, fault);
      reply := Remaining(remaining);
    case SetBalance(name, seconds, reason, at) =>
      var remaining;
      remaining, failed := s.SetBalance(name, seconds, reason, at, fault);
      reply := Remaining(remaining);
    case Heartbeat(name, machine, now, maxGap) =>
      var allowed, remaining;
      allowed, remaining, failed := s.Heartbeat(name, machine, now, maxGap, fault);
      reply := Beat(allowed, remaining);
    case StatusOf(name, now) =>
      reply, failed := s.Status(name, now, scan.QueryFails?);
    case ListAll(now) =>
      var out;
      out, failed := s.List(now, scan);
      reply := Listing(out);
  }

  lemma NothingFails(s: Store, l: Ledger, op: Op)
    ensures !s.Fails(l, op, NO_FAULTS)
  {
  }

  lemma NamedKept(s: Store, l: Ledger, op: Op)
    requires Named(l.users)
    ensures Named(s.Step(l, op).users)
  {
  }

  lemma RunStep(s: Store, l: Ledger, ops: seq<Op>, i: nat)
    requires i < |ops|
    ensures s.RunOf(l, ops[..i + 1]) == s.Step(s.RunOf(l, ops[..i]), ops[i])
    ensures s.AnswersOf(l, ops[..i + 1]) == s.AnswersOf(l, ops[..i]) + [Answer(s.RunOf(l, ops[..i]), ops[i])]
  {
    assert ops[..i + 1] == ops[..i] + [ops[i]];
    RunSnoc(l, ops[..i], ops[i]);
    StoredRunSnoc(l, ops[..i], ops[i]);
  }

  /** Make the calls one after the other. */
  method Drive(s: Store, ops: seq<Op>) returns (replies: seq<Reply>)
    requires s.Valid() && Named(s.Abs().users)
    modifies s.Footprint()
    ensures s.Valid() && s.Abs() == s.RunOf(old(s.Abs()), ops)
    ensures replies == s.AnswersOf(old(s.Abs()), ops)
    ensures old(s.Trimmed()) ==> s.Trimmed()
  {
    replies := [];
    ghost var start := s.Abs();
    for i := 0 to |ops|
      invariant s.Valid() && (forall o :: o in s.Footprint() ==> o in old(s.Footprint()) || fresh(o))
      invariant s.Abs() == s.RunOf(start, ops[..i]) && Named(s.Abs().users)
      invariant replies == s.AnswersOf(start, ops[..i])
      invariant old(s.Trimmed()) ==> s.Trimmed()
    {
      RunStep(s, start, ops, i);
      NothingFails(s, s.Abs(), ops[i]);
      NamedKept(s, s.Abs(), ops[i]);
      var reply, failed := s.Call(ops[i], NO_FAULTS);
      replies := replies + [reply];
    }
    assert ops[..|ops|] == ops;
  }

  /** The engines behave identically while every beat falls on a storable instant and the
      wall clock is not set: two new stores, one of each kind, given the same calls without
      a failure, make the same replies, those traced from the calls alone, and hold the same
      accounts and audit log, but for the clock readings that only memory keeps. */
  method DriveBoth(json: JsonStore.Store, sql: SqlStore.Store, ops: seq<Op>)
    returns (a: seq<Reply>, b: seq<Reply>)
    requires json.Valid() && sql.Valid() && json.Abs() == sql.Abs() == EMPTY
    requires json.maxGrants == sql.maxGrants
    modifies json, json.users.Values, json.disk, sql
    ensures json.Abs() == Run(EMPTY, ops) && a == Answers(EMPTY, ops)
    ensures sql.Abs() == StoredRun(EMPTY, ops) && b == StoredAnswers(EMPTY, ops)
    ensures AllTraced(ops, a)
    ensures forall walls, offsets :: OneClock(walls, offsets) && Clocked(ops, walls, offsets) ==>
              && a == b && sql.Accounts() == PlainUsers(json.Accounts())
              && SqlStore.RowsById(sql.grants, 1, sql.lastId) == SqlStore.StoredRecords(json.grants)
  {
    assert Named(EMPTY.users);
    assert json.Trimmed();
    AnswersAreTraced(ops);
    a := Drive(Json(json), ops);
    assert sql.Valid() && sql.Abs() == EMPTY;
    b := Drive(Sql(sql), ops);
    assert json.Abs() == Run(EMPTY, ops) && json.Trimmed();
    forall walls, offsets | OneClock(walls, offsets) && Clocked(ops, walls, offsets)
      ensures a == b && sql.Accounts() == PlainUsers(json.Accounts())
      ensures SqlStore.RowsById(sql.grants, 1, sql.lastId) == SqlStore.StoredRecords(json.grants)
    {
      StorableRunsAgree(ops, walls, offsets);
      SameTables(json, sql);
    }
  }

  /** Equal ledgers, but for what a table does not keep, are kept alike. */
  lemma SameTables(json: JsonStore.Store, sql: SqlStore.Store)
    requires sql.Valid() && json.Trimmed() && json.maxGrants == sql.maxGrants
    requires sql.Abs() == Stored(json.Abs())
    ensures sql.Accounts() == PlainUsers(json.Accounts())
    ensures SqlStore.RowsById(sql.grants, 1, sql.lastId) == SqlStore.StoredRecords(json.grants)
  {
    RowsAreStoredRecords(sql.grants, json.Abs().log, sql.maxGrants);
  }
}
