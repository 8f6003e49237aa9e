/** The time-bank rules of `internal/store/accounting.go`. */
module Accounting {
  import opened Int64
  import opened Times

  const PLAYING_WINDOW: int := 90 * SECOND

  /** The value of a `User` record. */
  datatype Account = Account(name: string, balance: int64, machine: string, lastSeen: Time, active: bool)

  /** The read model handed to dashboards and clients. */
  datatype Status = Status(user: string, remaining: int64, allowed: bool, playing: bool, machine: string)

  function NewAccount(name: string): Account {
    Account(name, 0, "", ZERO, false)
  }

  /** Whole seconds of a duration, rounded toward zero as a Go conversion is. */
  function Seconds(d: int): int {
    if d < 0 then -(-d / SECOND) else d / SECOND
  }

  /** The part of a second dropped is on the side of zero. */
  lemma SecondsDropsAFraction(d: int)
    ensures var dropped := d - Seconds(d) * SECOND;
            -SECOND < dropped < SECOND && (d >= 0 ==> dropped >= 0) && (d <= 0 ==> dropped <= 0)
  {
  }

  /** What a clamped, wrapping addition leaves in the bank: a sum above the range wraps
      to a negative number and is clamped to nothing. */
  function Deposit(balance: int64, seconds: int64): (r: int64)
    ensures r >= 0
  {
    var sum := balance + seconds;
    if sum > MAX then 0 else if sum < MIN then sum + TWO_64 else Max(sum, 0)
  }

  /** The nominal charge, in seconds, of a beat: nothing unless it resumes the session. */
  function Charge(u: Account, machine: string, now: Time, maxGap: int64): int {
    if u.active && u.machine == machine
    then Seconds(Min(Max(Sub(now, u.lastSeen), 0), maxGap))
    else 0
  }

  function Granted(u: Account, seconds: int64): Account {
    u.(balance := Deposit(u.balance, seconds))
  }

  function BalanceSet(u: Account, seconds: int64): Account {
    u.(balance := Max(seconds, 0))
  }

  /** The account after a beat. */
  function Beaten(u: Account, machine: string, now: Time, maxGap: int64): (r: Account) {
    ChargeInRange(u, machine, now, maxGap);
    var balance := if u.active && u.machine == machine
                   then Deposit(u.balance, -Charge(u, machine, now, maxGap))
                   else u.balance;
    Account(u.name, balance, machine, now, balance > 0)
  }

  function StatusAt(u: Account, now: Time): Status {
    var playing := u.active && Sub(now, u.lastSeen) <= PLAYING_WINDOW;
    Status(u.name, u.balance, u.balance > 0, playing, if playing then u.machine else "")
  }

  lemma ChargeInRange(u: Account, machine: string, now: Time, maxGap: int64)
    ensures MIN <= -Charge(u, machine, now, maxGap) <= MAX
    ensures maxGap >= 0 ==> 0 <= Charge(u, machine, now, maxGap) <= maxGap / SECOND
    ensures -SECOND < maxGap < 0 ==> Charge(u, machine, now, maxGap) == 0
  {
  }

  /** The mutable record both engines hand to the rules. */
  class User {
    const name: string
    ghost const slot: string // the map key or row this record was loaded from
    var balanceSeconds: int64
    var sessionMachine: string
    var sessionLastSeen: Time
    var sessionActive: bool

    ghost function View(): Account
      reads this
    {
      Account(name, balanceSeconds, sessionMachine, sessionLastSeen, sessionActive)
    }

    constructor (name: string)
      ensures View() == NewAccount(name) && slot == name
    {
      this.name, slot := name, name;
      balanceSeconds, sessionMachine, sessionLastSeen, sessionActive := 0, "", ZERO, false;
    }

    constructor Decoded(ghost slot: string, a: Account)
      ensures View() == a && this.slot == slot
    {
      name, this.slot := a.name, slot;
      balanceSeconds, sessionMachine, sessionLastSeen, sessionActive := a.balance, a.machine, a.lastSeen, a.active;
    }

    method ApplyGrant(seconds: int64)
      modifies this
      ensures View() == Granted(old(View()), seconds)
    {
      balanceSeconds := Wrap(balanceSeconds + seconds);
      if balanceSeconds < 0 {
        balanceSeconds := 0;
      }
    }

    method ApplySetBalance(seconds: int64) returns (delta: int64)
      modifies this
      ensures View() == BalanceSet(old(View()), seconds)
      ensures delta == Wrap(View().balance - old(View()).balance)
    {
      var target := seconds;
      if target < 0 {
        target := 0;
      }
      delta := Wrap(target - balanceSeconds);
      balanceSeconds := target;
    }

    method ApplyHeartbeat(machine: string, now: Time, maxGap: int64) returns (allowed: bool)
      modifies this
      ensures View() == Beaten(old(View()), machine, now, maxGap)
      ensures allowed <==> View().balance > 0
    {
      var resuming := sessionActive && sessionMachine == machine;
      if resuming {
        var elapsed := Sub(now, sessionLastSeen);
        if elapsed < 0 {
          elapsed := 0;
        }
        if elapsed > maxGap {
          elapsed := maxGap;
        }
        ApplyGrant(-Seconds(elapsed));
      } else {
        sessionActive := true;
        sessionMachine := machine;
      }
      sessionLastSeen := now;
      allowed := balanceSeconds > 0;
      if !allowed {
        sessionActive := false;
      }
    }

    method Snapshot(now: Time) returns (st: Status)
      ensures st == StatusAt(View(), now)
    {
      var playing := sessionActive && Sub(now, sessionLastSeen) <= PLAYING_WINDOW;
      st := Status(name, balanceSeconds, balanceSeconds > 0, playing, "");
      if playing {
        st := st.(machine := sessionMachine);
      }
    }
  }

  /** A deposit is the plain clamped sum exactly when the sum does not exceed the
      64-bit range; a grant beyond it empties the bank. */
  lemma DepositIsClampedSum(balance: int64, seconds: int64)
    requires balance >= 0
    ensures Deposit(balance, seconds) == Max(balance + seconds, 0) <==> balance + seconds <= MAX
    ensures balance + seconds > MAX ==> Deposit(balance, seconds) == 0
  {
  }

  /** Setting a balance is granting the logged delta. */
  lemma SetIsGrantOfDelta(u: Account, seconds: int64)
    requires u.balance >= 0
    ensures BalanceSet(u, seconds) == Granted(u, Wrap(Max(seconds, 0) - u.balance))
  {
  }

  /** No beat ever raises a balance exactly when the cap on a gap is above minus one second. */
  lemma NeverCreditsExactly(maxGap: int64)
    ensures (forall u: Account, machine, now :: u.balance >= 0 ==> Beaten(u, machine, now, maxGap).balance <= u.balance)
       <==> maxGap > -SECOND
  {
    if maxGap > -SECOND {
      forall u: Account, machine, now | u.balance >= 0
        ensures Beaten(u, machine, now, maxGap).balance <= u.balance
      {
        ChargeInRange(u, machine, now, maxGap);
      }
    } else {
      var broke := Account("", 0, "", ZERO, true);
      CapCredits(broke, "", ZERO, maxGap);
      assert Beaten(broke, "", ZERO, maxGap).balance > broke.balance;
    }
  }

  /** Under such a cap every resumed beat, at whatever time, credits the whole seconds of
      the cap. */
  lemma CapCredits(u: Account, machine: string, now: Time, maxGap: int64)
    requires maxGap <= -SECOND && u.active && u.machine == machine
    ensures Charge(u, machine, now, maxGap) == Seconds(maxGap) <= -1
    ensures Beaten(u, machine, now, maxGap).balance == Deposit(u.balance, -Seconds(maxGap))
  {
  }
}
