/** One abstract ledger for the `Store` interface: what each operation answers and
    leaves behind. Both storage engines are proved against it. */
module Ledger {
  import opened Int64
  import opened Accounting
  import opened Times
  import Names
  import Seqs

  datatype GrantRecord = GrantRecord(user: string, seconds: int64, reason: string, when: Time)

  /** A call of the `Store` interface with the clock readings it makes. */
  datatype Op =
    | EnsureUser(name: string)
    | Grant(name: string, seconds: int64, reason: string, at: Time)
    | SetBalance(name: string, seconds: int64, reason: string, at: Time)
    | Heartbeat(name: string, machine: string, now: Time, maxGap: int64)
    | StatusOf(name: string, now: Time)
    | ListAll(now: Time)

  datatype Reply =
    | Done
    | Remaining(remaining: int64)
    | Beat(allowed: bool, remaining: int64)
    | Snapshot(status: Status)
    | UnknownUser
    | Listing(statuses: seq<Status>)

  /** Every account, and every audit record ever written, oldest first. */
  datatype Ledger = Ledger(users: map<string, Account>, log: seq<GrantRecord>)

  const EMPTY := Ledger(map[], [])

  /** Accounts and records as they come back from a file: without clock readings. */
  function PlainAccount(u: Account): Account {
    u.(lastSeen := Plain(u.lastSeen))
  }

  function PlainUsers(users: map<string, Account>): map<string, Account> {
    map n | n in users :: PlainAccount(users[n])
  }

  function PlainRecords(log: seq<GrantRecord>): (r: seq<GrantRecord>)
    ensures |r| == |log|
  {
    seq(|log|, i requires 0 <= i < |log| => log[i].(when := Plain(log[i].when)))
  }

  /** All that storing and reading back loses is the clock readings. */
  lemma PlainLosesReadings(users: map<string, Account>, log: seq<GrantRecord>)
    ensures PlainUsers(users).Keys == users.Keys
    ensures forall n :: n in users ==>
              var u, v := users[n], PlainUsers(users)[n];
              && v.name == u.name && v.balance == u.balance && v.machine == u.machine && v.active == u.active
              && v.lastSeen == Time(u.lastSeen.wall, NoReading)
    ensures forall i :: 0 <= i < |log| ==>
              var e, f := log[i], PlainRecords(log)[i];
              && f.user == e.user && f.seconds == e.seconds && f.reason == e.reason
              && f.when == Time(e.when.wall, NoReading)
  {
  }

  function UserOf(l: Ledger, name: string): Account {
    if name in l.users then l.users[name] else NewAccount(name)
  }

  /** The audit record an operation appends, if any. */
  function Entry(l: Ledger, op: Op): seq<GrantRecord> {
    match op
    case Grant(name, seconds, reason, at) => [GrantRecord(name, seconds, reason, at)]
    case SetBalance(name, seconds, reason, at) =>
      [GrantRecord(name, Wrap(Max(seconds, 0) - UserOf(l, name).balance), "set: " + reason, at)]
    case _ => []
  }

  /** The account an operation leaves for the user it names. */
  function Touched(u: Account, op: Op): Account {
    match op
    case Grant(_, seconds, _, _) => Granted(u, seconds)
    case SetBalance(_, seconds, _, _) => BalanceSet(u, seconds)
    case Heartbeat(_, machine, now, maxGap) => Beaten(u, machine, now, maxGap)
    case _ => u
  }

  predicate Writes(op: Op) {
    !op.StatusOf? && !op.ListAll?
  }

  function Next(l: Ledger, op: Op): Ledger {
    if Writes(op)
    then Ledger(l.users[op.name := Touched(UserOf(l, op.name), op)], l.log + Entry(l, op))
    else l
  }

  /** The statuses of the named accounts, in the order given. */
  function StatusesOf(users: map<string, Account>, names: seq<string>, now: Time): (r: seq<Status>)
    requires forall n :: n in names ==> n in users
    ensures |r| == |names|
  {
    seq(|names|, i requires 0 <= i < |names| => StatusAt(users[names[i]], now))
  }

  ghost function ListingAt(users: map<string, Account>, now: Time): (r: seq<Status>)
    ensures |r| == |users|
  {
    assert |users.Keys| == |users|;
    StatusesOf(users, Names.Sorted(users.Keys), now)
  }

  ghost function Answer(l: Ledger, op: Op): Reply {
    match op
    case EnsureUser(_) => Done
    case StatusOf(name, now) => if name in l.users then Snapshot(StatusAt(l.users[name], now)) else UnknownUser
    case ListAll(now) => Listing(ListingAt(l.users, now))
    case Heartbeat(name, _, _, _) =>
      var balance := Touched(UserOf(l, name), op).balance;
      Beat(balance > 0, balance)
    case _ => Remaining(Touched(UserOf(l, op.name), op).balance)
  }

  function Run(l: Ledger, ops: seq<Op>): Ledger {
    if ops == [] then l else Next(Run(l, ops[..|ops| - 1]), ops[|ops| - 1])
  }

  ghost function Answers(l: Ledger, ops: seq<Op>): seq<Reply> {
    if ops == [] then []
    else Answers(l, ops[..|ops| - 1]) + [Answer(Run(l, ops[..|ops| - 1]), ops[|ops| - 1])]
  }

  lemma RunSnoc(l: Ledger, ops: seq<Op>, op: Op)
    ensures Run(l, ops + [op]) == Next(Run(l, ops), op)
    ensures Answers(l, ops + [op]) == Answers(l, ops) + [Answer(Run(l, ops), op)]
  {
    assert (ops + [op])[..|ops + [op]| - 1] == ops;
  }

  /** What every run from the empty ledger keeps. */
  predicate Sound(l: Ledger) {
    forall n :: n in l.users ==> l.users[n].name == n && l.users[n].balance >= 0
  }

  lemma {:induction false} RunKeepsSound(l: Ledger, ops: seq<Op>)
    requires Sound(l)
    ensures Sound(Run(l, ops))
  {
    if ops != [] {
      RunKeepsSound(l, ops[..|ops| - 1]);
    }
  }

  function LastN<T>(s: seq<T>, n: nat): (r: seq<T>)
    ensures |r| == Min(|s|, n)
    ensures forall i :: 0 <= i < |r| ==> r[i] == s[|s| - |r| + i]
  {
    if |s| > n then s[|s| - n..] else s
  }

  /** Every record's name is the key it is stored under. */
  predicate Named(users: map<string, Account>) {
    forall n :: n in users ==> users[n].name == n
  }

  function ByUser(st: Status): string {
    st.user
  }

  /** One status for each account, ordered by user. */
  ghost predicate IsListing(users: map<string, Account>, now: Time, out: seq<Status>) {
    multiset(out) == multiset(ListingAt(users, now)) && Names.Ordered(ByUser, out)
  }

  /** With every record under its own name, there is only one. */
  lemma ListingIsUnique(users: map<string, Account>, now: Time, out: seq<Status>)
    requires Named(users) && IsListing(users, now, out)
    ensures out == ListingAt(users, now)
  {
    Names.OrderedIsUnique(ByUser, out, ListingAt(users, now));
  }

  /** A listing goes up by user, as the strings compare. */
  ghost predicate Ascending(out: seq<Status>) {
    forall i, j :: 0 <= i < j < |out| ==> out[i].user == out[j].user || Names.Smaller(out[i].user, out[j].user)
  }

  lemma ListingAscends(users: map<string, Account>, now: Time, out: seq<Status>)
    requires IsListing(users, now, out)
    ensures Ascending(out)
  {
    forall i, j | 0 <= i < j < |out| ensures out[i].user == out[j].user || Names.Smaller(out[i].user, out[j].user) {
      Names.BeforeTotal(out[i].user, out[j].user);
      Names.BeforeIsSmaller(out[i].user, out[j].user);
    }
  }

  lemma ListingIsListing(users: map<string, Account>, now: Time)
    requires Named(users)
    ensures IsListing(users, now, ListingAt(users, now))
  {
    var names := Names.Sorted(users.Keys);
    forall i, j | 0 <= i < j < |names| ensures !Names.Before(names[j], names[i]) {
      Names.BeforeAsymmetric(names[i], names[j]);
    }
  }

  /** Whatever order the accounts are visited in, sorting their statuses lists them. */
  lemma VisitedIsListing(users: map<string, Account>, visited: seq<string>, now: Time, out: seq<Status>)
    requires multiset(visited) == multiset(users.Keys) && forall n :: n in visited ==> n in users
    requires multiset(out) == multiset(StatusesOf(users, visited, now))
    requires Names.Ordered(ByUser, out)
    ensures IsListing(users, now, out)
  {
    Names.IncreasingIsASet(Names.Sorted(users.Keys), users.Keys);
    StatusesPermute(users, visited, Names.Sorted(users.Keys), now);
  }

  lemma StatusesPermute(users: map<string, Account>, a: seq<string>, b: seq<string>, now: Time)
    requires (forall n :: n in a ==> n in users) && (forall n :: n in b ==> n in users)
    requires multiset(a) == multiset(b)
    ensures multiset(StatusesOf(users, a, now)) == multiset(StatusesOf(users, b, now))
  {
    var status := (n: string) => StatusAt(if n in users then users[n] else NewAccount(n), now);
    Seqs.MappedPermute(status, a, b);
    assert StatusesOf(users, a, now) == Seqs.Mapped(status, a);
    assert StatusesOf(users, b, now) == Seqs.Mapped(status, b);
  }

  lemma AnswerIsListing(l: Ledger, now: Time, out: seq<Status>)
    requires Named(l.users) && Listing(out) == Answer(l, ListAll(now))
    ensures IsListing(l.users, now, out)
  {
    ListingIsListing(l.users, now);
  }

  lemma ListingAnswers(l: Ledger, now: Time, out: seq<Status>)
    requires IsListing(l.users, now, out)
    ensures Named(l.users) ==> Listing(out) == Answer(l, ListAll(now))
  {
    if Named(l.users) {
      ListingIsUnique(l.users, now, out);
    }
  }
}
