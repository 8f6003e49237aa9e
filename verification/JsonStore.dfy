/** The JSON engine of `internal/store/store.go`: the world in memory, rewritten to one
    file through a temporary file and a rename. */
module JsonStore {
  import opened Int64
  import opened Accounting
  import opened Times
  import opened Ledger
  import Names

  /** What one encoded file holds, or the memory that is encoded. */
  datatype Image = Image(users: map<string, Account>, grants: seq<GrantRecord>)

  /** Encoding then decoding: all of it comes back but the clock readings of its times. */
  function PlainImage(image: Image): Image {
    Image(PlainUsers(image.users), PlainRecords(image.grants))
  }

  datatype Content = Missing | Empty | Garbage | Holds(image: Image)

  /** The point at which rewriting the file fails. A failed write leaves `partial`. */
  datatype Fault = NoFault | MkdirFails | EncodeFails | WriteFails(partial: Content) | RenameFails

  class Disk {
    var file: Content
    var tmp: Content
  }

  class Store {
    const disk: Disk
    const maxGrants: nat
    var users: map<string, User>
    var grants: seq<GrantRecord>
    ghost var trimmed: seq<GrantRecord> // the records dropped from the front of the log

    ghost predicate Valid()
      reads this
    {
      && (forall n :: n in users ==> users[n].slot == n)
      && (|trimmed| > 0 ==> |grants| >= maxGrants)
    }

    ghost function Accounts(): (m: map<string, Account>)
      reads this, users.Values
    {
      map n | n in users :: users[n].View()
    }

    /** The abstract ledger this store stands for. */
    ghost function Abs(): Ledger
      reads this, users.Values
    {
      Ledger(Accounts(), trimmed + grants)
    }

    /** The slice is the end of the full history. */
    ghost predicate Trimmed()
      reads this
    {
      grants == LastN(trimmed + grants, maxGrants)
    }

    /** Start from an empty store. */
    constructor Fresh(disk: Disk, maxGrants: nat, image: Image)
      requires image.users == map[]
      ensures Valid() && grants == image.grants && trimmed == []
      ensures this.disk == disk && this.maxGrants == maxGrants && users == map[]
    {
      this.disk, this.maxGrants := disk, maxGrants;
      users, grants, trimmed := map[], image.grants, [];
    }

    /** `NewJSONStore`: load what the file holds, or start empty and write it. A file that
        is there may be unreadable. */
    static method Open(disk: Disk, unreadable: bool, fault: Fault) returns (s: Store?, failed: bool)
      modifies disk
      ensures var started := old(disk.file).Missing? && !unreadable && fault.NoFault?;
              disk.file == if started then Holds(Image(map[], [])) else old(disk.file)
      ensures failed <==> unreadable || old(disk.file).Garbage? || (old(disk.file).Missing? && !fault.NoFault?)
      ensures s == null <==> unreadable || old(disk.file).Garbage?
      ensures s != null ==> s.Valid() && fresh(s) && fresh(s.users.Values) && s.disk == disk && s.maxGrants == 500
      ensures s != null && !old(disk.file).Holds? ==> s.Abs() == EMPTY
      ensures s != null && old(disk.file).Holds? ==>
                var image := PlainImage(old(disk.file).image); s.Abs() == Ledger(image.users, image.grants)
    {
      if unreadable || disk.file.Garbage? {
        return null, true;
      }
      var image := if disk.file.Holds? then PlainImage(disk.file.image) else Image(map[], []);
      s := new Store.Fresh(disk, 500, image.(users := map[]));
      failed := false;
      if disk.file.Missing? {
        assert s.Accounts() == map[];
        failed := s.Flush(fault);
      } else {
        s.Load(image.users);
      }
    }

    /** One record per decoded entry, each its own. */
    method Load(entries: map<string, Account>)
      requires Valid() && users == map[]
      modifies this`users
      ensures Valid() && fresh(users.Values) && Accounts() == entries
    {
      var todo := entries.Keys;
      while todo != {}
        invariant todo <= entries.Keys && users.Keys == entries.Keys - todo
        invariant Valid()
        invariant forall n :: n in users ==> fresh(users[n]) && users[n].View() == entries[n]
      {
        var n :| n in todo;
        var u := new User.Decoded(n, entries[n]);
        users := users[n := u];
        todo := todo - {n};
      }
      assert users.Keys == entries.Keys;
    }

    method Flush(fault: Fault) returns (failed: bool)
      modifies disk
      ensures failed <==> !fault.NoFault?
      ensures disk.file == if failed then old(disk.file) else Holds(PlainImage(Image(Accounts(), grants)))
    {
      if fault.MkdirFails? || fault.EncodeFails? {
        return true;
      }
      if fault.WriteFails? {
        disk.tmp := fault.partial;
        return true;
      }
      var image := map n | n in users :: Account(users[n].name, users[n].balanceSeconds, users[n].sessionMachine,
                                                 users[n].sessionLastSeen, users[n].sessionActive);
      disk.tmp := Holds(PlainImage(Image(image, grants)));
      if fault.RenameFails? {
        return true;
      }
      assert image == Accounts();
      disk.file, disk.tmp := disk.tmp, Missing;
      return false;
    }

    method GetOrCreate(name: string) returns (u: User)
      requires Valid()
      modifies this`users
      ensures Valid() && users == old(users)[name := u] && u.View() == UserOf(old(Abs()), name)
      ensures name !in old(users) ==> fresh(u)
      ensures name in old(users) ==> u == old(users)[name]
    {
      if name in users {
        u := users[name];
      } else {
        u := new User(name);
        users := users[name := u];
      }
    }

    method LogGrant(name: string, seconds: int64, reason: string, now: Time)
      requires Valid()
      modifies this`grants, this`trimmed
      ensures Valid()
      ensures trimmed + grants == old(trimmed + grants) + [GrantRecord(name, seconds, reason, now)]
      ensures Trimmed()
    {
      grants := grants + [GrantRecord(name, seconds, reason, now)];
      if |grants| > maxGrants {
        trimmed := trimmed + grants[..|grants| - maxGrants];
        grants := grants[|grants| - maxGrants..];
      }
    }

    /** Touching one record, and appending its audit entry, is a step of the ledger. */
    twostate lemma Stepped(op: Op)
      requires old(Valid()) && Valid() && Writes(op) && op.name in users
      requires users == old(users)[op.name := users[op.name]]
      requires forall n :: n in old(users) && n != op.name ==> unchanged(old(users)[n])
      requires users[op.name].View() == old(Touched(UserOf(Abs(), op.name), op))
      requires trimmed + grants == old(trimmed + grants) + old(Entry(Abs(), op))
      ensures Abs() == Next(old(Abs()), op)
    {
      assert Accounts() == old(Accounts())[op.name := users[op.name].View()];
    }

    /** What every write does: the ledger moves by `op`, and the file is either the new
        image or untouched. */
    twostate predicate Wrote(op: Op, fault: Fault, failed: bool)
      reads this, users.Values, disk
    {
      && Valid()
      && (forall n :: n in users ==> (n in old(users) && users[n] == old(users[n])) || fresh(users[n]))
      && Abs() == Next(old(Abs()), op)
      && (failed <==> !fault.NoFault?)
      && disk.file == (if failed then old(disk.file) else Holds(PlainImage(Image(Accounts(), grants))))
    }

    method EnsureUser(name: string, fault: Fault) returns (failed: bool)
      requires Valid()
      modifies this, users.Values, disk
      ensures Wrote(Op.EnsureUser(name), fault, failed)
      ensures grants == old(grants) && trimmed == old(trimmed)
    {
      var u := GetOrCreate(name);
      Stepped(Op.EnsureUser(name));
      failed := Flush(fault);
    }

    method Grant(name: string, seconds: int64, reason: string, at: Time, fault: Fault)
      returns (remaining: int64, failed: bool)
      requires Valid()
      modifies this, users.Values, disk
      ensures Wrote(Op.Grant(name, seconds, reason, at), fault, failed)
      ensures Remaining(remaining) == Answer(old(Abs()), Op.Grant(name, seconds, reason, at))
      ensures Trimmed()
    {
      var u := GetOrCreate(name);
      u.ApplyGrant(seconds);
      remaining := u.balanceSeconds;
      LogGrant(name, seconds, reason, at);
      Stepped(Op.Grant(name, seconds, reason, at));
      failed := Flush(fault);
    }

    method SetBalance(name: string, seconds: int64, reason: string, at: Time, fault: Fault)
      returns (remaining: int64, failed: bool)
      requires Valid()
      modifies this, users.Values, disk
      ensures Wrote(Op.SetBalance(name, seconds, reason, at), fault, failed)
      ensures Remaining(remaining) == Answer(old(Abs()), Op.SetBalance(name, seconds, reason, at))
      ensures Trimmed()
    {
      var u := GetOrCreate(name);
      var delta := u.ApplySetBalance(seconds);
      assert old(Entry(Abs(), Op.SetBalance(name, seconds, reason, at)))
          == [GrantRecord(name, delta, "set: " + reason, at)];
      LogGrant(name, delta, "set: " + reason, at);
      remaining := u.balanceSeconds;
      Stepped(Op.SetBalance(name, seconds, reason, at));
      failed := Flush(fault);
    }

    method Heartbeat(name: string, machine: string, now: Time, maxGap: int64, fault: Fault)
      returns (allowed: bool, remaining: int64, failed: bool)
      requires Valid()
      modifies this, users.Values, disk
      ensures Wrote(Op.Heartbeat(name, machine, now, maxGap), fault, failed)
      ensures Beat(allowed, remaining) == Answer(old(Abs()), Op.Heartbeat(name, machine, now, maxGap))
      ensures grants == old(grants) && trimmed == old(trimmed)
    {
      var u := GetOrCreate(name);
      allowed := u.ApplyHeartbeat(machine, now, maxGap);
      remaining := u.balanceSeconds;
      Stepped(Op.Heartbeat(name, machine, now, maxGap));
      failed := Flush(fault);
    }

    method Status(name: string, now: Time) returns (r: Reply)
      requires Valid()
      ensures r == Answer(Abs(), StatusOf(name, now))
    {
      if name !in users {
        return UnknownUser;
      }
      var st := users[name].Snapshot(now);
      r := Reply.Snapshot(st);
    }

    /** Append in whatever order the map yields its records, then sort by user. */
    method List(now: Time) returns (out: seq<Accounting.Status>)
      requires Valid()
      ensures IsListing(Accounts(), now, out)
      ensures Ascending(out)
      ensures Named(Accounts()) ==> Listing(out) == Answer(Abs(), ListAll(now))
    {
      ghost var visited;
      out, visited := Snapshots(now);
      ghost var l := Abs();
      out := Names.SortBy(ByUser, out);
      VisitedIsListing(l.users, visited, now, out);
      ListingAscends(l.users, now, out);
      ListingAnswers(l, now, out);
    }

    /** The loop over the map, whose order `visited` records. */
    method Snapshots(now: Time) returns (out: seq<Accounting.Status>, ghost visited: seq<string>)
      requires Valid()
      ensures multiset(visited) == multiset(Accounts().Keys) && forall n :: n in visited ==> n in Accounts()
      ensures out == StatusesOf(Accounts(), visited, now)
    {
      out, visited := [], [];
      var todo := users.Keys;
      ghost var accounts := Accounts();
      while todo != {}
        invariant todo <= users.Keys
        invariant multiset(visited) == multiset(users.Keys - todo)
        invariant forall n :: n in visited ==> n in accounts
        invariant out == StatusesOf(accounts, visited, now)
      {
        var n :| n in todo;
        var st := users[n].Snapshot(now);
        assert users.Keys - (todo - {n}) == (users.Keys - todo) + {n};
        out, visited := out + [st], visited + [n];
        todo := todo - {n};
      }
      assert users.Keys - todo == accounts.Keys;
    }
  }
}
