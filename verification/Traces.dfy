/** What a run replies and records, told from the run alone: without session fields, without
    the rules and without the order of names that the engines sort by. */
module Traces {
  import opened Accounting
  import opened Times
  import opened Int64
  import opened Ledger
  import opened Charging
  import Names

  /** The status of a user after `ops`: playing if the latest beat was allowed and is not
      longer ago than the window. */
  function TraceStatus(ops: seq<Op>, user: string, now: Time): Status {
    var balance, k := TraceBalance(ops, user), LastBeat(ops, user);
    var playing := k >= 0 && TraceBalance(ops[..k + 1], user) > 0 && Sub(now, ops[k].now) <= 90 * SECOND;
    Status(user, balance, balance > 0, playing, if playing then ops[k].machine else "")
  }

  lemma StatusIsTraced(ops: seq<Op>, user: string, now: Time)
    ensures StatusAt(UserOf(Run(EMPTY, ops), user), now) == TraceStatus(ops, user, now)
  {
    ChargesExactly(ops, user);
    SessionIsLastBeat(ops, user);
    var k := LastBeat(ops, user);
    if k >= 0 {
      ChargesExactly(ops[..k + 1], user);
    }
  }

  /** Some call has named the user, other than to ask. */
  ghost predicate Known(ops: seq<Op>, user: string) {
    exists i :: 0 <= i < |ops| && Writes(ops[i]) && ops[i].name == user
  }

  lemma {:induction false} KnownExactly(ops: seq<Op>, user: string)
    ensures user in Run(EMPTY, ops).users <==> Known(ops, user)
  {
    if ops != [] {
      var init, op := ops[..|ops| - 1], ops[|ops| - 1];
      KnownExactly(init, user);
      if i :| 0 <= i < |init| && Writes(init[i]) && init[i].name == user {
        assert ops[i] == init[i];
      }
      if i :| 0 <= i < |ops| && Writes(ops[i]) && ops[i].name == user {
        assert i < |init| ==> init[i] == ops[i];
      }
    }
  }

  /** `out` has the status of every known user once and goes up by name. */
  ghost predicate TracedListing(ops: seq<Op>, now: Time, out: seq<Status>) {
    && (forall i :: 0 <= i < |out| ==> Known(ops, out[i].user) && out[i] == TraceStatus(ops, out[i].user, now))
    && (forall user :: Known(ops, user) ==> exists i :: 0 <= i < |out| && out[i].user == user)
    && (forall i, j :: 0 <= i < j < |out| ==> Names.Smaller(out[i].user, out[j].user))
  }

  /** The reply to `op` after `ops`. */
  ghost predicate Traced(ops: seq<Op>, op: Op, reply: Reply) {
    match op
    case EnsureUser(_) => reply == Done
    case Grant(name, _, _, _) => reply == Remaining(TraceBalance(ops + [op], name))
    case SetBalance(name, _, _, _) => reply == Remaining(TraceBalance(ops + [op], name))
    case Heartbeat(name, _, _, _) =>
      var balance := TraceBalance(ops + [op], name); reply == Beat(balance > 0, balance)
    case StatusOf(name, now) => reply == if Known(ops, name) then Snapshot(TraceStatus(ops, name, now)) else UnknownUser
    case ListAll(now) => reply.Listing? && TracedListing(ops, now, reply.statuses)
  }

  lemma EntryIsTraced(ops: seq<Op>, now: Time, i: nat)
    requires i < |ListingAt(Run(EMPTY, ops).users, now)|
    ensures var users := Run(EMPTY, ops).users;
            var st, name := ListingAt(users, now)[i], Names.Sorted(users.Keys)[i];
            st.user == name && Known(ops, name) && st == TraceStatus(ops, name, now)
  {
    var users := Run(EMPTY, ops).users;
    var name := Names.Sorted(users.Keys)[i];
    assert name in users;
    RunKeepsSound(EMPTY, ops);
    KnownExactly(ops, name);
    StatusIsTraced(ops, name, now);
  }

  lemma KnownIsListed(ops: seq<Op>, now: Time, user: string)
    requires Known(ops, user)
    ensures var out := ListingAt(Run(EMPTY, ops).users, now); exists i :: 0 <= i < |out| && out[i].user == user
  {
    var names := Names.Sorted(Run(EMPTY, ops).users.Keys);
    KnownExactly(ops, user);
    assert user in names;
    var i :| 0 <= i < |names| && names[i] == user;
    EntryIsTraced(ops, now, i);
  }

  lemma ListingIsTraced(ops: seq<Op>, now: Time)
    ensures TracedListing(ops, now, ListingAt(Run(EMPTY, ops).users, now))
  {
    var out := ListingAt(Run(EMPTY, ops).users, now);
    forall i | 0 <= i < |out| ensures Known(ops, out[i].user) && out[i] == TraceStatus(ops, out[i].user, now) {
      EntryIsTraced(ops, now, i);
    }
    forall user | Known(ops, user) ensures exists i :: 0 <= i < |out| && out[i].user == user {
      KnownIsListed(ops, now, user);
    }
    forall i, j | 0 <= i < j < |out| ensures Names.Smaller(out[i].user, out[j].user) {
      EntryIsTraced(ops, now, i);
      EntryIsTraced(ops, now, j);
      Names.BeforeIsSmaller(out[i].user, out[j].user);
    }
  }

  /** Every reply is the traced one. */
  lemma AnswerIsTraced(ops: seq<Op>, op: Op)
    ensures Traced(ops, op, Answer(Run(EMPTY, ops), op))
  {
    match op
    case EnsureUser(_) =>
    case StatusOf(name, now) =>
      KnownExactly(ops, name);
      StatusIsTraced(ops, name, now);
    case ListAll(now) => ListingIsTraced(ops, now);
    case _ =>
      RunSnoc(EMPTY, ops, op);
      ChargesExactly(ops + [op], op.name);
  }

  ghost predicate AllTraced(ops: seq<Op>, replies: seq<Reply>) {
    |replies| == |ops| && forall i :: 0 <= i < |ops| ==> Traced(ops[..i], ops[i], replies[i])
  }

  lemma {:induction false} AnswersAreTraced(ops: seq<Op>)
    ensures AllTraced(ops, Answers(EMPTY, ops))
  {
    if ops != [] {
      var init, answers := ops[..|ops| - 1], Answers(EMPTY, ops);
      AnswersAreTraced(init);
      AnswerIsTraced(init, ops[|ops| - 1]);
      forall i | 0 <= i < |ops| ensures Traced(ops[..i], ops[i], answers[i]) {
        if i < |init| {
          assert ops[..i] == init[..i] && answers[i] == Answers(EMPTY, init)[i];
          assert Traced(init[..i], init[i], Answers(EMPTY, init)[i]);
        }
      }
    }
  }

  /** The audit log, told by balances before and after. */
  function TraceLog(ops: seq<Op>): seq<GrantRecord> {
    if ops == [] then []
    else
      var init, op := ops[..|ops| - 1], ops[|ops| - 1];
      TraceLog(init) +
      match op
      case Grant(name, seconds, reason, at) => [GrantRecord(name, seconds, reason, at)]
      case SetBalance(name, _, reason, at) =>
        [GrantRecord(name, TraceBalance(ops, name) - TraceBalance(init, name), "set: " + reason, at)]
      case _ => []
  }

  /** A grant is logged as asked for, a setting as the change it made. */
  lemma {:induction false} LogIsTraced(ops: seq<Op>)
    ensures Run(EMPTY, ops).log == TraceLog(ops)
  {
    if ops != [] {
      var init, op := ops[..|ops| - 1], ops[|ops| - 1];
      LogIsTraced(init);
      if op.SetBalance? {
        ChargesExactly(init, op.name);
      }
    }
  }
}
