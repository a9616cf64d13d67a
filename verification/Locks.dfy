/** The finished book: the balances the validator reads at a month's lock, over the entries authored before it, are
    the balances as the log stood at the lock and the balances now. What that rests on is the order of the locks, and
    that the book starts with the year. */
module Locks {
  import opened Lines
  import opened EventLog
  import opened Chains

  /** The validator's rules on dates, locks and amendments, over a finished log. */
  predicate ValidLog(start: int, accounts: nat, log: Log, locks: map<nat, int>) {
    && Linked(log) && DoubleEntries(log, accounts)
    && (forall k :: 0 <= k < |log| ==>
          start <= log[k].date <= log[k].authored && BeforeLock(locks, log[k].date, log[k].authored))
    && (forall k :: 0 <= k < |log| && log[k].amendedBy.Some? ==>
          var j := log[k].amendedBy.value; j < |log| && BeforeLock(locks, log[k].date, log[j].authored))
  }

  predicate EveryMonthLocked(locks: map<nat, int>) {
    forall m :: 0 <= m < 12 ==> m in locks
  }

  /** The entry was in the log on day `on`, and nothing had yet amended it. */
  predicate CountedThen(log: Log, k: nat, on: int)
    requires k < |log|
  {
    && log[k].authored < on
    && (log[k].amendedBy.None? || (log[k].amendedBy.value < |log| && log[log[k].amendedBy.value].authored >= on))
  }

  /** A balance as the log stood on day `on`. */
  function StoodThen(log: Log, n: nat, a: int, asOf: int, on: int): int
    requires n <= |log|
  {
    if n == 0 then 0
    else
      StoodThen(log, n - 1, a, asOf, on)
      + (if log[n - 1].date <= asOf && CountedThen(log, n - 1, on) then Delta(log[n - 1].lines, a) else 0)
  }

  /** The first day of month `k` the book may date an entry on. */
  function FirstDay(start: int, k: nat): int {
    if start <= MonthStart(k) then MonthStart(k) else start
  }

  /** The book starts with the year or later, and no month from its first one to `m` is locked later than `m`, unless it
      is locked so early that nothing can be in it. */
  predicate InLockOrder(start: int, locks: map<nat, int>, m: nat)
    requires EveryMonthLocked(locks) && m < 12
  {
    start <= MonthEnd(m) ==>
      && start >= FY_START
      && forall k :: Month(start) <= k <= m ==> locks[k] <= locks[m] || locks[k] <= FirstDay(start, k)
  }

  /** A date of the year, and the month it is in. */
  lemma DateInMonth(start: int, date: int, m: nat)
    requires m < 12 && FY_START <= start <= date <= MonthEnd(m)
    ensures Month(start) <= Month(date) <= m && FirstDay(start, Month(date)) <= date
  {
    MonthEndsAMonth(date, m);
    if Month(date) > 0 {
      MonthEndsAMonth(date, Month(date) - 1);
    }
  }

  /** Then everything dated up to the month's end was written before that month's lock. */
  lemma DatedInIsWrittenBefore(start: int, accounts: nat, log: Log, locks: map<nat, int>, m: nat, k: nat)
    requires ValidLog(start, accounts, log, locks) && EveryMonthLocked(locks) && m < 12 && k < |log|
    requires InLockOrder(start, locks, m)
    ensures log[k].date <= MonthEnd(m) ==> log[k].authored < locks[m]
    ensures log[k].date <= MonthEnd(m) && log[k].amendedBy.Some? ==>
      log[k].amendedBy.value < |log| && log[log[k].amendedBy.value].authored < locks[m]
  {
    if log[k].date <= MonthEnd(m) {
      DateInMonth(start, log[k].date, m);
      var month := Month(log[k].date);
      assert BeforeLock(locks, log[k].date, log[k].authored);
      assert locks[month] <= locks[m];
    }
  }

  /** Where the log as it stood counts exactly what counts now. */
  lemma {:induction false} StoodIsCounted(log: Log, n: nat, a: int, asOf: int, on: int)
    requires n <= |log|
    requires forall k :: 0 <= k < n && log[k].date <= asOf ==> (CountedThen(log, k, on) <==> IsHead(log[k]))
    ensures StoodThen(log, n, a, asOf, on) == Total(log[..n], AsOf(asOf), a)
  {
    if n > 0 {
      StoodIsCounted(log, n - 1, a, asOf, on);
      assert log[..n][..n - 1] == log[..n - 1];
    }
  }

  /** With the locks in order: what the validator reads at the lock, what the log held then, and what the finished log
      holds are one figure, on every account. */
  lemma {:induction false} LockFigures(start: int, accounts: nat, log: Log, locks: map<nat, int>, m: nat, a: int)
    requires ValidLog(start, accounts, log, locks) && EveryMonthLocked(locks) && m < 12
    requires InLockOrder(start, locks, m)
    ensures Total(log, AsOfKnown(MonthEnd(m), locks[m]), a) == Bal(log, a, MonthEnd(m))
    ensures StoodThen(log, |log|, a, MonthEnd(m), locks[m]) == Bal(log, a, MonthEnd(m))
  {
    var asOf, on := MonthEnd(m), locks[m];
    forall k | 0 <= k < |log|
      ensures AsOfKnown(asOf, on)(log[k]) == AsOf(asOf)(log[k])
      ensures log[k].date <= asOf ==> (CountedThen(log, k, on) <==> IsHead(log[k]))
    {
      DatedInIsWrittenBefore(start, accounts, log, locks, m, k);
    }
    StoodIsCounted(log, |log|, a, asOf, on);
    assert log[..|log|] == log;
    TotalAgree(log, AsOfKnown(asOf, on), AsOf(asOf), a);
  }

  /** A day up to the end of month `m`, and a day of writing an entry on it, that slip past the lock of `m`. */
  lemma LateDay(start: int, locks: map<nat, int>, m: nat) returns (date: int, authored: int)
    requires EveryMonthLocked(locks) && m < 12 && !InLockOrder(start, locks, m)
    ensures start <= date <= MonthEnd(m) && date <= authored && locks[m] <= authored
    ensures BeforeLock(locks, date, authored)
  {
    if start < FY_START {
      date, authored := start, if start <= locks[m] then locks[m] else start;
    } else {
      var k :| Month(start) <= k <= m && locks[k] > locks[m] && locks[k] > FirstDay(start, k);
      date, authored := FirstDay(start, k), locks[k] - 1;
      MonthEndsAMonth(start, k);
      MonthsInOrder(k, m);
      MonthOf(date, k);
    }
  }

  /** With the locks out of order there is a valid book whose figure at the lock leaves an entry out. */
  lemma LateEntryIsLeftOut(start: int, accounts: nat, locks: map<nat, int>, m: nat, a: nat, other: nat)
    returns (log: Log)
    requires EveryMonthLocked(locks) && m < 12 && !InLockOrder(start, locks, m)
    requires a < accounts && other < accounts && a != other
    ensures ValidLog(start, accounts, log, locks)
    ensures Total(log, AsOfKnown(MonthEnd(m), locks[m]), a) == 0 && Bal(log, a, MonthEnd(m)) == 1
  {
    var date, authored := LateDay(start, locks, m);
    var e := NewEntry(date, authored, [Line(a, 1), Line(other, -1)], Plain);
    log := [] + [e];
    PairOfLines(a, other);
    assert AmendLink(log, 0) && ReverseLink(log, 0);
    TotalSnoc([], e, AsOf(MonthEnd(m)), a);
    TotalSnoc([], e, AsOfKnown(MonthEnd(m), locks[m]), a);
  }

  /** The figure read at a month's lock is the final one in every valid book exactly when the locks are in order and the
      book does not start before the year. */
  lemma {:induction false} LockFiguresExactly(start: int, accounts: nat, locks: map<nat, int>, m: nat, a: nat)
    requires EveryMonthLocked(locks) && m < 12 && a < accounts && accounts >= 2
    ensures InLockOrder(start, locks, m) <==>
      forall log :: ValidLog(start, accounts, log, locks) ==>
        Total(log, AsOfKnown(MonthEnd(m), locks[m]), a) == Bal(log, a, MonthEnd(m))
  {
    if InLockOrder(start, locks, m) {
      forall log | ValidLog(start, accounts, log, locks)
        ensures Total(log, AsOfKnown(MonthEnd(m), locks[m]), a) == Bal(log, a, MonthEnd(m))
      {
        LockFigures(start, accounts, log, locks, m, a);
      }
    } else {
      var log := LateEntryIsLeftOut(start, accounts, locks, m, a, if a == 0 then 1 else 0);
    }
  }

  // ------------------------------------------------------------------ locking every month

  /** The day `lock_all` locks a month on: a day of the next month, the last month on its own day. */
  function LockDay(m: nat, day: nat, marchDay: nat): int {
    MonthEnd(m) + (if m == 11 then marchDay else day)
  }

  method LockAll(b: Book, day: nat, marchDay: nat)
    requires 1 <= day <= 31 && 1 <= marchDay <= 31
    modifies b`locks
    ensures EveryMonthLocked(b.locks) && forall m :: 0 <= m < 12 ==> b.locks[m] == LockDay(m, day, marchDay)
    ensures AreLockDays(b.locks, day, marchDay)
    ensures forall m :: m >= 12 ==>
         (m in b.locks <==> m in old(b.locks)) && (m in b.locks ==> b.locks[m] == old(b.locks)[m])
  {
    for m := 0 to 12
      invariant forall j :: 0 <= j < m ==> j in b.locks && b.locks[j] == LockDay(j, day, marchDay)
      invariant forall j :: j >= 12 ==>
        (j in b.locks <==> j in old(b.locks)) && (j in b.locks ==> b.locks[j] == old(b.locks)[j])
    {
      b.Lock(m, LockDay(m, day, marchDay));
    }
  }

  /** The days `lock_all` locks on, one by one, counted from 01 Apr. */
  predicate AreLockDays(locks: map<nat, int>, day: nat, marchDay: nat)
    requires EveryMonthLocked(locks)
  {
    && locks[0] == 30 + day && locks[1] == 61 + day && locks[2] == 91 + day && locks[3] == 122 + day
    && locks[4] == 153 + day && locks[5] == 183 + day && locks[6] == 214 + day && locks[7] == 244 + day
    && locks[8] == 275 + day && locks[9] == 306 + day && locks[10] == 334 + day && locks[11] == 365 + marchDay
  }

  lemma LockDaysInOrder(day: nat, marchDay: nat, j: nat, m: nat)
    requires 1 <= day <= 31 && 1 <= marchDay <= 31 && j <= m < 12
    ensures LockDay(j, day, marchDay) <= LockDay(m, day, marchDay)
  {
    MonthsInOrder(j, m);
  }

  /** With every month locked by `lock_all`, whatever its two days: the figures read at the locks are the final ones in
      every valid book exactly when the book does not start before the year. */
  lemma {:induction false} LockAllFigures(start: int, accounts: nat, locks: map<nat, int>, day: nat, marchDay: nat,
      m: nat, a: nat)
    requires 1 <= day <= 31 && 1 <= marchDay <= 31 && m < 12 && a < accounts && accounts >= 2
    requires EveryMonthLocked(locks) && forall k :: 0 <= k < 12 ==> locks[k] == LockDay(k, day, marchDay)
    ensures start >= FY_START <==>
      forall log :: ValidLog(start, accounts, log, locks) ==>
        Total(log, AsOfKnown(MonthEnd(m), locks[m]), a) == Bal(log, a, MonthEnd(m))
  {
    forall k | 0 <= k <= m ensures locks[k] <= locks[m] {
      LockDaysInOrder(day, marchDay, k, m);
    }
    MonthsInOrder(0, m);
    LockFiguresExactly(start, accounts, locks, m, a);
  }
}
