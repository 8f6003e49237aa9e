/** The SQLite engine of `internal/store/sqlite.go`: a users table keyed by name, a grants
    table keyed by an auto-increment id, one transaction for each operation. */
module SqlStore {
  import opened Int64
  import opened Accounting
  import opened Times
  import opened Ledger
  import Names

  /** A row of the users table; `lastSeen` is Unix nanoseconds, 0 for never. */
  datatype UserRow = UserRow(balance: int64, machine: string, lastSeen: int64, active: int64)

  /** The statement of a transaction that fails. */
  datatype Fault = NoFault | BeginFails | LoadFails | SaveFails | InsertFails | TrimFails | CommitFails

  /** Where listing the rows fails. */
  datatype ScanFault = NoScanFault | QueryFails | RowFails(row: nat) | EndFails

  function Decode(name: string, row: UserRow): Account {
    var lastSeen := if row.lastSeen != 0 then Time(row.lastSeen, NoReading) else ZERO;
    Account(name, row.balance, row.machine, lastSeen, row.active != 0)
  }

  /** `UnixNano` of a time, with the zero time as the sentinel 0. */
  function EncodeTime(t: Time): int64 {
    if t.wall == ZERO.wall then 0 else Wrap(t.wall)
  }

  /** The time read back after writing `t`. */
  function StoredTime(t: Time): Time {
    if EncodeTime(t) != 0 then Time(EncodeTime(t), NoReading) else ZERO
  }

  /** The time of an audit record, which has no sentinel. */
  function StoredStamp(t: Time): Time {
    Time(Wrap(t.wall), NoReading)
  }

  /** A record keeps its instant if 64 bits can hold it. */
  lemma StampKeepsInstant(t: Time)
    ensures StoredStamp(t) == Time(t.wall, NoReading) <==> MIN <= t.wall <= MAX
  {
  }

  /** Nothing else of a record changes in its row. */
  lemma StoredRecordsKeep(log: seq<GrantRecord>, i: nat)
    requires i < |log|
    ensures var e, f := log[i], StoredRecords(log)[i];
            f.user == e.user && f.seconds == e.seconds && f.reason == e.reason
    ensures StoredRecords(log)[i].when == StoredStamp(log[i].when)
  {
  }

  function StoredAccount(u: Account): Account {
    u.(lastSeen := StoredTime(u.lastSeen))
  }

  function StoredRecords(log: seq<GrantRecord>): (r: seq<GrantRecord>)
    ensures |r| == |log|
  {
    seq(|log|, i requires 0 <= i < |log| => log[i].(when := StoredStamp(log[i].when)))
  }

  /** The ledger step as this engine performs it: what it saves has gone through the
      column encoding. */
  function StoredNext(l: Ledger, op: Op): Ledger {
    if Writes(op)
    then Ledger(l.users[op.name := StoredAccount(Touched(UserOf(l, op.name), op))], l.log + StoredRecords(Entry(l, op)))
    else l
  }

  /** The rows `SELECT ... ORDER BY id` yields for ids `lo..hi`. */
  function RowsById(rows: map<int, GrantRecord>, lo: int, hi: int): seq<GrantRecord>
    decreases hi - lo
  {
    if lo > hi then []
    else (if lo in rows then [rows[lo]] else []) + RowsById(rows, lo + 1, hi)
  }

  class Store {
    const maxGrants: nat
    var users: map<string, UserRow>
    var grants: map<int, GrantRecord>
    var lastId: nat // the AUTOINCREMENT sequence
    ghost var history: seq<GrantRecord>

    ghost predicate Valid()
      reads this`grants, this`lastId, this`history
    {
      && |history| == lastId
      && (forall id :: id in grants <==> Max(lastId - maxGrants, 0) < id <= lastId)
      && (forall id :: id in grants ==> grants[id] == history[id - 1])
    }

    ghost function Accounts(): map<string, Account>
      reads this`users
    {
      map n | n in users :: Decode(n, users[n])
    }

    ghost function Abs(): Ledger
      reads this`users, this`history
    {
      Ledger(Accounts(), history)
    }

    /** A new database: the schema with no rows. */
    constructor (maxGrants: nat)
      ensures Valid() && Abs() == EMPTY && this.maxGrants == maxGrants
    {
      this.maxGrants := maxGrants;
      users, grants, lastId, history := map[], map[], 0, [];
      new;
      assert Accounts() == map[];
    }

    method LoadUser(name: string) returns (u: User)
      ensures fresh(u) && u.View() == UserOf(Abs(), name)
    {
      u := new User(name);
      if name in users {
        var row := users[name];
        u.balanceSeconds, u.sessionMachine := row.balance, row.machine;
        if row.lastSeen != 0 {
          u.sessionLastSeen := Time(row.lastSeen, NoReading);
        }
        u.sessionActive := row.active != 0;
      }
    }

    method SaveUser(u: User)
      modifies this`users
      ensures Accounts() == old(Accounts())[u.name := StoredAccount(u.View())]
    {
      var lastSeen: int64 := 0;
      if u.sessionLastSeen.wall != ZERO.wall {
        lastSeen := Wrap(u.sessionLastSeen.wall);
      }
      var active: int64 := 0;
      if u.sessionActive {
        active := 1;
      }
      users := users[u.name := UserRow(u.balanceSeconds, u.sessionMachine, lastSeen, active)];
      assert Decode(u.name, users[u.name]) == StoredAccount(u.View());
    }

    /** Insert with the next id, then delete every id not among the newest `maxGrants`:
        those with at least `maxGrants` newer ids in the table. */
    method LogGrant(name: string, seconds: int64, reason: string, now: Time, fault: Fault) returns (failed: bool)
      requires Valid()
      modifies this`grants, this`lastId, this`history
      ensures failed <==> fault.InsertFails? || fault.TrimFails?
      ensures !failed ==> Valid() && history == old(history) + [GrantRecord(name, seconds, reason, StoredStamp(now))]
    {
      if fault.InsertFails? {
        return true;
      }
      lastId := lastId + 1;
      grants := grants[lastId := GrantRecord(name, seconds, reason, StoredStamp(now))];
      history := history + [GrantRecord(name, seconds, reason, StoredStamp(now))];
      if fault.TrimFails? {
        return true;
      }
      ghost var oldest := Max(lastId - 1 - maxGrants, 0);
      forall id | id in grants ensures Newer(grants.Keys, id) == lastId - id {
        NewerInInterval(grants.Keys, oldest, lastId, id);
      }
      grants := map id | id in grants && Newer(grants.Keys, id) < maxGrants :: grants[id];
      return false;
    }

    /** What every operation does: it either steps the ledger or changes nothing. */
    twostate predicate Transacted(op: Op, failed: bool)
      reads this
    {
      && Valid()
      && Abs() == (if failed then old(Abs()) else StoredNext(old(Abs()), op))
      && (failed ==> users == old(users) && grants == old(grants) && lastId == old(lastId))
    }

    /** A saved user and its audit record make one step of the ledger. */
    twostate lemma Committed(op: Op)
      requires Valid() && Writes(op) && |Entry(old(Abs()), op)| == 1
      requires Accounts() == old(Accounts())[op.name := StoredAccount(Touched(UserOf(old(Abs()), op.name), op))]
      requires var e := Entry(old(Abs()), op)[0]; history == old(history) + [e.(when := StoredStamp(e.when))]
      ensures Transacted(op, false)
    {
      var e := Entry(old(Abs()), op)[0];
      assert StoredRecords(Entry(old(Abs()), op)) == [e.(when := StoredStamp(e.when))];
    }

    method EnsureUser(name: string, fault: Fault) returns (failed: bool)
      requires Valid()
      modifies this
      ensures Transacted(Op.EnsureUser(name), failed)
      ensures failed <==> fault.BeginFails? || fault.LoadFails? || fault.SaveFails? || fault.CommitFails?
    {
      if fault.BeginFails? || fault.LoadFails? {
        return true;
      }
      var begun := users;
      var u := LoadUser(name);
      if fault.SaveFails? {
        return true;
      }
      SaveUser(u);
      if fault.CommitFails? {
        users := begun;
        return true;
      }
      return false;
    }

    method Grant(name: string, seconds: int64, reason: string, at: Time, fault: Fault)
      returns (remaining: int64, failed: bool)
      requires Valid()
      modifies this
      ensures Transacted(Op.Grant(name, seconds, reason, at), failed)
      ensures failed <==> !fault.NoFault?
      ensures !failed ==> Remaining(remaining) == Answer(old(Abs()), Op.Grant(name, seconds, reason, at))
    {
      if fault.BeginFails? {
        return 0, true;
      }
      var begun, begunGrants, begunId := users, grants, lastId;
      ghost var begunHistory := history;
      remaining, failed := GrantTx(name, seconds, reason, at, fault);
      if failed || fault.CommitFails? {
        users, grants, lastId, history := begun, begunGrants, begunId, begunHistory;
        failed := true;
      } else {
        Committed(Op.Grant(name, seconds, reason, at));
      }
    }

    /** The statements inside the transaction of `Grant`. */
    method GrantTx(name: string, seconds: int64, reason: string, at: Time, fault: Fault)
      returns (remaining: int64, failed: bool)
      requires Valid()
      modifies this
      ensures failed <==> fault.LoadFails? || fault.SaveFails? || fault.InsertFails? || fault.TrimFails?
      ensures !failed ==> var u := Granted(UserOf(old(Abs()), name), seconds);
                          remaining == u.balance && Accounts() == old(Accounts())[name := StoredAccount(u)]
      ensures !failed ==> Valid() && history == old(history) + [GrantRecord(name, seconds, reason, StoredStamp(at))]
    {
      if fault.LoadFails? {
        return 0, true;
      }
      var u := LoadUser(name);
      u.ApplyGrant(seconds);
      if fault.SaveFails? {
        return 0, true;
      }
      SaveUser(u);
      remaining := u.balanceSeconds;
      failed := LogGrant(name, seconds, reason, at, fault);
    }

    method SetBalance(name: string, seconds: int64, reason: string, at: Time, fault: Fault)
      returns (remaining: int64, failed: bool)
      requires Valid()
      modifies this
      ensures Transacted(Op.SetBalance(name, seconds, reason, at), failed)
      ensures failed <==> !fault.NoFault?
      ensures !failed ==> Remaining(remaining) == Answer(old(Abs()), Op.SetBalance(name, seconds, reason, at))
    {
      if fault.BeginFails? {
        return 0, true;
      }
      var begun, begunGrants, begunId := users, grants, lastId;
      ghost var begunHistory := history;
      remaining, failed := SetBalanceTx(name, seconds, reason, at, fault);
      if failed || fault.CommitFails? {
        users, grants, lastId, history := begun, begunGrants, begunId, begunHistory;
        failed := true;
      } else {
        Committed(Op.SetBalance(name, seconds, reason, at));
      }
    }

    /** The statements inside the transaction of `SetBalance`. */
    method SetBalanceTx(name: string, seconds: int64, reason: string, at: Time, fault: Fault)
      returns (remaining: int64, failed: bool)
      requires Valid()
      modifies this
      ensures failed <==> fault.LoadFails? || fault.SaveFails? || fault.InsertFails? || fault.TrimFails?
      ensures !failed ==> var u := BalanceSet(UserOf(old(Abs()), name), seconds);
                          remaining == u.balance && Accounts() == old(Accounts())[name := StoredAccount(u)]
      ensures !failed ==> && Valid()
                          && var delta := Wrap(Max(seconds, 0) - UserOf(old(Abs()), name).balance);
                             history == old(history) + [GrantRecord(name, delta, "set: " + reason, StoredStamp(at))]
    {
      if fault.LoadFails? {
        return 0, true;
      }
      var u := LoadUser(name);
      var delta := u.ApplySetBalance(seconds);
      if fault.SaveFails? {
        return 0, true;
      }
      SaveUser(u);
      remaining := u.balanceSeconds;
      failed := LogGrant(name, delta, "set: " + reason, at, fault);
    }

    method Heartbeat(name: string, machine: string, now: Time, maxGap: int64, fault: Fault)
      returns (allowed: bool, remaining: int64, failed: bool)
      requires Valid()
      modifies this
      ensures Transacted(Op.Heartbeat(name, machine, now, maxGap), failed)
      ensures failed <==> fault.BeginFails? || fault.LoadFails? || fault.SaveFails? || fault.CommitFails?
      ensures !failed ==> Beat(allowed, remaining) == Answer(old(Abs()), Op.Heartbeat(name, machine, now, maxGap))
    {
      allowed, remaining := false, 0;
      if fault.BeginFails? || fault.LoadFails? {
        return false, 0, true;
      }
      var begun := users;
      var u := LoadUser(name);
      allowed := u.ApplyHeartbeat(machine, now, maxGap);
      remaining := u.balanceSeconds;
      failed := fault.SaveFails?;
      if !failed {
        SaveUser(u);
        if fault.CommitFails? {
          users := begun;
          failed := true;
        }
      }
    }

    method Status(name: string, now: Time, queryFails: bool) returns (r: Reply, failed: bool)
      ensures failed <==> queryFails
      ensures !failed ==> r == Answer(Abs(), StatusOf(name, now))
    {
      if queryFails {
        return UnknownUser, true;
      }
      if name !in users {
        return UnknownUser, false;
      }
      var u := LoadUser(name);
      var st := u.Snapshot(now);
      return Reply.Snapshot(st), false;
    }

    method List(now: Time, fault: ScanFault) returns (out: seq<Accounting.Status>, failed: bool)
      ensures failed <==> fault.QueryFails? || fault.EndFails? || (fault.RowFails? && fault.row < |Accounts()|)
      ensures !failed ==> Listing(out) == Answer(Abs(), ListAll(now)) && Ascending(out)
    {
      if fault.QueryFails? {
        return [], true;
      }
      var rows := SelectNames();
      out, failed := ScanRows(rows, now, fault);
      if !failed {
        AnswerIsListing(Abs(), now, out);
        ListingAscends(Accounts(), now, out);
      }
      failed := failed || fault.EndFails?;
    }

    /** Scan the rows in the order `ORDER BY name ASC` yields them. */
    method ScanRows(rows: seq<string>, now: Time, fault: ScanFault) returns (out: seq<Accounting.Status>, failed: bool)
      requires forall n :: n in rows ==> n in Accounts()
      ensures failed <==> fault.RowFails? && fault.row < |rows|
      ensures !failed ==> out == StatusesOf(Accounts(), rows, now)
    {
      out := [];
      for i := 0 to |rows|
        invariant |out| == i && (fault.RowFails? ==> i <= fault.row)
        invariant forall j :: 0 <= j < i ==> out[j] == StatusAt(Accounts()[rows[j]], now)
      {
        if fault == RowFails(i) {
          return [], true;
        }
        var u := LoadUser(rows[i]);
        var st := u.Snapshot(now);
        out := out + [st];
      }
      failed := false;
    }

    /** The primary keys in name order. */
    method SelectNames() returns (rows: seq<string>)
      ensures rows == Names.Sorted(Accounts().Keys) && |rows| == |Accounts()|
    {
      rows := [];
      var todo := users.Keys;
      while todo != {}
        invariant todo <= users.Keys
        invariant multiset(rows) == multiset(users.Keys - todo)
      {
        var n :| n in todo;
        assert users.Keys - (todo - {n}) == (users.Keys - todo) + {n};
        rows := rows + [n];
        todo := todo - {n};
      }
      assert users.Keys - todo == Accounts().Keys;
      rows := Names.SortBy(Names.Itself, rows);
      Names.IncreasingIsASet(Names.Sorted(Accounts().Keys), Accounts().Keys);
      Names.OrderedIsUnique(Names.Itself, rows, Names.Sorted(Accounts().Keys));
    }
  }

  /** How many of `ids` are greater than `id`. */
  function Newer(ids: set<int>, id: int): nat {
    |set k | k in ids && k > id|
  }

  lemma {:induction false} NewerInInterval(ids: set<int>, lo: int, hi: int, id: int)
    requires forall k :: k in ids <==> lo < k <= hi
    requires lo <= id <= hi
    ensures Newer(ids, id) == hi - id
    decreases hi - id
  {
    var newer := set k | k in ids && k > id;
    if id < hi {
      NewerInInterval(ids, lo, hi, id + 1);
      assert newer == (set k | k in ids && k > id + 1) + {id + 1};
    } else {
      assert newer == {};
    }
  }

  /** The surviving rows in id order are the last `n` records of the history. */
  lemma RowsAreLastRecords(rows: map<int, GrantRecord>, history: seq<GrantRecord>, n: nat)
    requires forall id :: id in rows <==> Max(|history| - n, 0) < id <= |history|
    requires forall id :: id in rows ==> rows[id] == history[id - 1]
    ensures RowsById(rows, 1, |history|) == LastN(history, n)
  {
    RowsFrom(rows, history, Max(|history| - n, 0), 1);
  }

  lemma {:induction false} RowsFrom(rows: map<int, GrantRecord>, history: seq<GrantRecord>, cut: nat, lo: int)
    requires 1 <= lo <= |history| + 1 && cut <= |history|
    requires forall id :: id in rows <==> cut < id <= |history|
    requires forall id :: id in rows ==> rows[id] == history[id - 1]
    ensures RowsById(rows, lo, |history|) == history[Max(lo - 1, cut)..]
    decreases |history| - lo
  {
    if lo <= |history| {
      RowsFrom(rows, history, cut, lo + 1);
      if lo in rows {
        assert history[lo - 1..] == [history[lo - 1]] + history[lo..];
      }
    }
  }
}
