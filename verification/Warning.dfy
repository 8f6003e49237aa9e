/** The low-time warning of `warn.go`, over any sequence of observations. */
module Warning {
  import opened Int64
  import LockEngine

  const LOW_TIME_SECONDS := 5 * 60

  datatype Observation = Observation(locked: bool, remaining: int64)

  predicate Rearms(o: Observation) {
    o.locked || o.remaining > LOW_TIME_SECONDS
  }

  predicate Low(o: Observation) {
    !o.locked && 0 < o.remaining <= LOW_TIME_SECONDS
  }

  /** Every unlocked observation with time is one or the other, five minutes being low. */
  lemma FiveMinutesIsLow(o: Observation)
    ensures Low(o) <==> !o.locked && 1 <= o.remaining <= 300
    ensures Rearms(o) <==> o.locked || o.remaining >= 301
  {
  }

  /** A low observation with no re-arming one after it. */
  ghost predicate Spent(seen: seq<Observation>) {
    exists j :: 0 <= j < |seen| && Low(seen[j]) && forall k :: j < k < |seen| ==> !Rearms(seen[k])
  }

  /** Observation `i` is the first low one since the start or the latest re-arming one. */
  ghost predicate FirstLow(seen: seq<Observation>, i: nat)
    requires i < |seen|
  {
    Low(seen[i]) && forall j :: 0 <= j < i && Low(seen[j]) ==> exists k :: j < k < i && Rearms(seen[k])
  }

  lemma FirstLowUnlessSpent(seen: seq<Observation>, o: Observation)
    ensures FirstLow(seen + [o], |seen|) <==> Low(o) && !Spent(seen)
    ensures Spent(seen + [o]) <==> !Rearms(o) && (Low(o) || Spent(seen))
  {
    var all := seen + [o];
    if Low(o) && Spent(seen) {
      var j :| 0 <= j < |seen| && Low(seen[j]) && forall k :: j < k < |seen| ==> !Rearms(seen[k]);
      assert Low(all[j]) && forall k :: j < k < |seen| ==> all[k] == seen[k];
    }
    if Low(o) && !Spent(seen) {
      forall j | 0 <= j < |seen| && Low(all[j]) ensures exists k :: j < k < |seen| && Rearms(all[k]) {
        assert Low(seen[j]);
        var k :| j < k < |seen| && Rearms(seen[k]);
        assert Rearms(all[k]);
      }
    }
    if !Rearms(o) && Low(o) {
      assert Low(all[|seen|]);
    } else if !Rearms(o) && Spent(seen) {
      var j :| 0 <= j < |seen| && Low(seen[j]) && forall k :: j < k < |seen| ==> !Rearms(seen[k]);
      assert Low(all[j]) && forall k :: j < k < |all| ==> !Rearms(all[k]);
    }
    if Spent(all) {
      var j :| 0 <= j < |all| && Low(all[j]) && forall k :: j < k < |all| ==> !Rearms(all[k]);
      if j < |seen| {
        assert Low(seen[j]) && forall k :: j < k < |seen| ==> seen[k] == all[k];
        assert !Rearms(all[|seen|]);
      }
    }
  }

  class WarnTracker {
    var fired: bool
    ghost var seen: seq<Observation>

    ghost predicate Valid()
      reads this
    {
      fired <==> Spent(seen)
    }

    constructor ()
      ensures Valid() && seen == []
    {
      fired, seen := false, [];
    }

    /** Fires exactly at the first low observation of each descent. */
    method Check(locked: bool, remaining: int64) returns (warn: bool)
      requires Valid()
      modifies this
      ensures Valid() && seen == old(seen) + [Observation(locked, remaining)]
      ensures warn <==> FirstLow(seen, |seen| - 1)
    {
      FirstLowUnlessSpent(seen, Observation(locked, remaining));
      seen := seen + [Observation(locked, remaining)];
      if locked || remaining > LOW_TIME_SECONDS {
        fired := false;
        return false;
      }
      if remaining <= 0 || fired {
        return false;
      }
      fired := true;
      return true;
    }
  }

  ghost function Fires(seen: seq<Observation>): nat {
    if seen == [] then 0
    else Fires(seen[..|seen| - 1]) + (if FirstLow(seen, |seen| - 1) then 1 else 0)
  }

  /** The number of unbroken stretches of re-arming observations. */
  function RearmBlocks(seen: seq<Observation>): nat {
    if seen == [] then 0
    else
      var n := |seen| - 1;
      RearmBlocks(seen[..n]) + (if Rearms(seen[n]) && (n == 0 || !Rearms(seen[n - 1])) then 1 else 0)
  }

  /** At most one warning more than there were re-arming stretches. */
  lemma {:induction false} FiresAreBounded(seen: seq<Observation>)
    ensures Fires(seen) <= RearmBlocks(seen) + (if Spent(seen) then 1 else 0)
  {
    if seen != [] {
      var n := |seen| - 1;
      FiresAreBounded(seen[..n]);
      assert seen == seen[..n] + [seen[n]];
      FirstLowUnlessSpent(seen[..n], seen[n]);
      if Spent(seen[..n]) {
        var j :| 0 <= j < n && Low(seen[j]) && forall k :: j < k < n ==> !Rearms(seen[..n][k]);
        assert n > 0 && !Rearms(seen[n - 1]);
      }
    }
  }

  /** What the overlay sees of an undisturbed countdown sampled at every second. */
  function Descent(remaining: int64): seq<Observation>
    requires remaining >= 1
    decreases remaining
  {
    var (next, lock) := LockEngine.TickCountdown(remaining);
    [Observation(false, remaining)] + (if lock then [Observation(true, next)] else Descent(next))
  }

  /** After any observations that leave the tracker armed, a countdown from above the
      threshold to the lock warns exactly once; one that finds it spent does not warn. */
  lemma {:induction false} DescentWarnsOnce(before: seq<Observation>, remaining: int64)
    requires remaining >= 1
    ensures Fires(before + Descent(remaining)) ==
              Fires(before) + (if remaining > LOW_TIME_SECONDS || !Spent(before) then 1 else 0)
    decreases remaining
  {
    var o := Observation(false, remaining);
    var (next, lock) := LockEngine.TickCountdown(remaining);
    var rest := if lock then [Observation(true, next)] else Descent(next);
    assert before + Descent(remaining) == (before + [o]) + rest;
    FiresSnoc(before, o);
    if lock {
      FiresSnoc(before + [o], Observation(true, next));
    } else {
      DescentWarnsOnce(before + [o], next);
    }
  }

  lemma FiresSnoc(seen: seq<Observation>, o: Observation)
    ensures Fires(seen + [o]) == Fires(seen) + (if Low(o) && !Spent(seen) then 1 else 0)
    ensures Spent(seen + [o]) <==> !Rearms(o) && (Low(o) || Spent(seen))
  {
    assert (seen + [o])[..|seen|] == seen;
    FirstLowUnlessSpent(seen, o);
  }

  /** Low, then `n` times locked and low again. */
  function Bouts(n: nat): seq<Observation> {
    if n == 0 then [Observation(false, 1)] else Bouts(n - 1) + [Observation(true, 0)] + [Observation(false, 1)]
  }

  /** `n` re-arming stretches, and a warning more. */
  ghost predicate AtBound(seen: seq<Observation>, n: nat) {
    seen != [] && Low(seen[|seen| - 1]) && Fires(seen) == n + 1 && RearmBlocks(seen) == n
  }

  /** The bound is reached: a warning at the start and one after each re-arming. */
  lemma {:induction false} BoutsReachTheBound(n: nat)
    ensures AtBound(Bouts(n), n)
  {
    if n == 0 {
      FirstBout();
    } else {
      BoutsReachTheBound(n - 1);
      BoutAddsOne(Bouts(n - 1), n - 1);
    }
  }

  lemma FirstBout()
    ensures AtBound([Observation(false, 1)], 0)
  {
    var low := Observation(false, 1);
    FiresSnoc([], low);
    BlocksSnoc([], low);
    assert [] + [low] == [low];
  }

  lemma BoutAddsOne(before: seq<Observation>, n: nat)
    requires AtBound(before, n)
    ensures AtBound(before + [Observation(true, 0)] + [Observation(false, 1)], n + 1)
  {
    var locked, low := Observation(true, 0), Observation(false, 1);
    FiresSnoc(before, locked);
    FiresSnoc(before + [locked], low);
    BlocksSnoc(before, locked);
    BlocksSnoc(before + [locked], low);
  }

  lemma BlocksSnoc(seen: seq<Observation>, o: Observation)
    ensures RearmBlocks(seen + [o]) == RearmBlocks(seen)
              + (if Rearms(o) && (seen == [] || !Rearms(seen[|seen| - 1])) then 1 else 0)
  {
    assert (seen + [o])[..|seen|] == seen;
  }
}
