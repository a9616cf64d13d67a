/** The append-only log of a book: entries are added, corrected by new entries and reversed by new entries, months
    are locked, and only the head of an amend chain counts. */
module EventLog {
  import opened Totals
  import opened Lines
  import opened Options

  datatype Tag = Plain | CountDiff | Distribution

  /** An entry and its links: the entry it amends or reverses, and the entry that amends or reverses it. */
  datatype Entry = Entry(date: int, authored: int, lines: seq<Line>, tag: Tag,
                         amends: Option<nat>, amendedBy: Option<nat>, reverses: Option<nat>, reversedBy: Option<nat>)

  type Log = seq<Entry>

  /** 01 Apr 2025 = 1. */
  const FY_START := 1
  const FY_END := 365

  /** The last day of a month of the year, from 0 for April. */
  function MonthEnd(m: nat): int {
    if m == 0 then 30 else if m == 1 then 61 else if m == 2 then 91 else if m == 3 then 122 else if m == 4 then 153
    else if m == 5 then 183 else if m == 6 then 214 else if m == 7 then 244 else if m == 8 then 275
    else if m == 9 then 306 else if m == 10 then 334 else FY_END
  }

  function MonthStart(m: nat): int {
    if m == 0 then FY_START else MonthEnd(m - 1) + 1
  }

  /** The month of a date of the year; 12 after the year. */
  function Month(date: int): nat {
    if date <= 30 then 0 else if date <= 61 then 1 else if date <= 91 then 2 else if date <= 122 then 3
    else if date <= 153 then 4 else if date <= 183 then 5 else if date <= 214 then 6 else if date <= 244 then 7
    else if date <= 275 then 8 else if date <= 306 then 9 else if date <= 334 then 10 else if date <= 365 then 11
      else 12
  }

  lemma MonthEndsAMonth(date: int, m: nat)
    requires m < 12
    ensures date <= MonthEnd(m) <==> Month(date) <= m
  {
  }

  lemma MonthOf(date: int, m: nat)
    requires m < 12 && MonthStart(m) <= date <= MonthEnd(m)
    ensures Month(date) == m && date >= FY_START
  {
    MonthEndsAMonth(date, m);
    if m > 0 {
      MonthEndsAMonth(date, m - 1);
    }
  }

  lemma MonthsInOrder(j: nat, m: nat)
    requires j <= m < 12
    ensures FY_START <= MonthStart(j) <= MonthEnd(j) <= MonthEnd(m)
    ensures j < m ==> MonthEnd(j) + 28 <= MonthEnd(m)
    ensures j < 11 && m == 11 ==> MonthEnd(j) + 31 <= MonthEnd(m)
  {
    MonthEndsAMonth(MonthEnd(j), j);
  }

  // ------------------------------------------------------------------ balances

  predicate IsHead(e: Entry) {
    e.amendedBy.None?
  }

  /** The lines of the chosen entries on one account. */
  function Total(log: Log, keep: Entry -> bool, a: int): int {
    if log == [] then 0
    else
      var e := log[|log| - 1];
      Total(log[..|log| - 1], keep, a) + (if keep(e) then Delta(e.lines, a) else 0)
  }

  function TotalOf(log: Log, keep: Entry -> bool): int -> int {
    a => Total(log, keep, a)
  }

  /** Entries that count on a date. */
  function AsOf(asOf: int): Entry -> bool {
    (e: Entry) => IsHead(e) && e.date <= asOf
  }

  /** Entries that count on a date, those authored before `known` only. */
  function AsOfKnown(asOf: int, known: int): Entry -> bool {
    (e: Entry) => IsHead(e) && e.date <= asOf && e.authored < known
  }

  function Bal(log: Log, a: int, asOf: int): int {
    Total(log, AsOf(asOf), a)
  }

  lemma {:induction false} TotalAgree(log: Log, p: Entry -> bool, q: Entry -> bool, a: int)
    requires forall k :: 0 <= k < |log| ==> p(log[k]) == q(log[k])
    ensures Total(log, p, a) == Total(log, q, a)
  {
    if log != [] {
      TotalAgree(log[..|log| - 1], p, q, a);
    }
  }

  lemma {:induction false} TotalSnoc(log: Log, e: Entry, keep: Entry -> bool, a: int)
    ensures Total(log + [e], keep, a) == Total(log, keep, a) + (if keep(e) then Delta(e.lines, a) else 0)
  {
    assert (log + [e])[..|log|] == log;
  }

  /** Changing one entry of the log changes a balance by that entry's part in it. */
  lemma {:induction false} TotalUpdate(log: Log, i: nat, e: Entry, keep: Entry -> bool, a: int)
    requires i < |log|
    ensures Total(log[i := e], keep, a) == Total(log, keep, a)
      - (if keep(log[i]) then Delta(log[i].lines, a) else 0) + (if keep(e) then Delta(e.lines, a) else 0)
  {
    var last := |log| - 1;
    if i == last {
      assert log[i := e][..last] == log[..last];
    } else {
      assert log[i := e][..last] == log[..last][i := e];
      TotalUpdate(log[..last], i, e, keep, a);
    }
  }

  predicate DoubleEntries(log: Log, n: nat) {
    forall k :: 0 <= k < |log| ==> InChart(log[k].lines, n) && Net(log[k].lines) == 0
  }

  /** Whatever is counted, all accounts together are nil. */
  lemma {:induction false} AccountsTogetherAreNil(log: Log, keep: Entry -> bool, n: nat)
    requires DoubleEntries(log, n)
    ensures SumTo(TotalOf(log, keep), n) == 0
  {
    if log == [] {
      SumToZero(TotalOf(log, keep), n);
    } else {
      var pre, e := log[..|log| - 1], log[|log| - 1];
      AccountsTogetherAreNil(pre, keep, n);
      DeltasAddUp(e.lines, n);
      if keep(e) {
        SumToAdd(TotalOf(pre, keep), DeltaOf(e.lines), TotalOf(log, keep), n);
      } else {
        SumToEq(TotalOf(pre, keep), TotalOf(log, keep), n);
      }
    }
  }

  // ------------------------------------------------------------------ the three ways an entry is made

  function Negated(ls: seq<Line>): seq<Line> {
    seq(|ls|, k requires 0 <= k < |ls| => Line(ls[k].acct, -ls[k].amt))
  }

  lemma {:induction false} NegatedUndoes(ls: seq<Line>, a: int)
    ensures Delta(Negated(ls), a) == -Delta(ls, a) && Net(Negated(ls)) == -Net(ls)
  {
    if ls != [] {
      NegatedUndoes(ls[..|ls| - 1], a);
      assert Negated(ls)[..|ls| - 1] == Negated(ls[..|ls| - 1]);
    }
  }

  function NewEntry(date: int, authored: int, lines: seq<Line>, tag: Tag): Entry {
    Entry(date, authored, lines, tag, None, None, None, None)
  }

  function Posted(log: Log, e: Entry): Log {
    log + [e]
  }

  /** The original is marked and a new entry takes its place. */
  function Amended(log: Log, i: nat, date: int, authored: int, lines: seq<Line>): Log
    requires i < |log|
  {
    log[i := log[i].(amendedBy := Some(|log|))] + [NewEntry(date, authored, lines, log[i].tag).(amends := Some(i))]
  }

  /** The original stays, and a new entry carries its mirror. */
  function Reversed(log: Log, i: nat, date: int, authored: int): Log
    requires i < |log|
  {
    log[i := log[i].(reversedBy := Some(|log|))]
    + [NewEntry(date, authored, Negated(log[i].lines), Plain).(reverses := Some(i))]
  }

  class Book {
    const accounts: nat
    var log: Log
    var locks: map<nat, int>

    constructor (accounts: nat)
      ensures this.accounts == accounts && log == [] && locks == map[]
    {
      this.accounts := accounts;
      log := [];
      locks := map[];
    }

    method V(date: int, authored: int, lines: seq<Line>, tag: Tag) returns (id: nat)
      modifies this`log
      ensures id == |old(log)| && log == Posted(old(log), NewEntry(date, authored, lines, tag))
    {
      id := |log|;
      log := log + [NewEntry(date, authored, lines, tag)];
    }

    /** An entry is amended once; a second amendment goes to the new head. */
    method Amend(i: nat, date: int, authored: int, lines: seq<Line>) returns (ok: bool)
      requires i < |log|
      modifies this`log
      ensures ok <==> old(IsHead(log[i]))
      ensures log == if ok then Amended(old(log), i, date, authored, lines) else old(log)
    {
      if log[i].amendedBy.Some? {
        return false;
      }
      var id := V(date, authored, lines, log[i].tag);
      log := log[id := log[id].(amends := Some(i))];
      log := log[i := log[i].(amendedBy := Some(id))];
      ok := true;
    }

    method Reverse(i: nat, date: int, authored: int)
      requires i < |log|
      modifies this`log
      ensures log == Reversed(old(log), i, date, authored)
    {
      var id := V(date, authored, Negated(log[i].lines), Plain);
      log := log[id := log[id].(reverses := Some(i))];
      log := log[i := log[i].(reversedBy := Some(id))];
    }

    method Lock(m: nat, on: int)
      modifies this`locks
      ensures locks == old(locks)[m := on]
    {
      locks := locks[m := on];
    }

    /** Every account's balance as of a date, over the entries authored before `known` if that is given. */
    method Balances(asOf: int, known: Option<int>) returns (bal: seq<int>)
      requires forall k :: 0 <= k < |log| ==> InChart(log[k].lines, accounts)
      ensures |bal| == accounts
      ensures forall a :: 0 <= a < accounts ==>
        bal[a] == if known.Some? then Total(log, AsOfKnown(asOf, known.value), a) else Bal(log, a, asOf)
    {
      bal := AddUp(log, accounts, if known.Some? then AsOfKnown(asOf, known.value) else AsOf(asOf));
    }
  }

  /** One pass over the log, one over the lines of each entry that counts. */
  method AddUp(log: Log, n: nat, keep: Entry -> bool) returns (bal: seq<int>)
    requires forall k :: 0 <= k < |log| ==> InChart(log[k].lines, n)
    ensures |bal| == n && forall a :: 0 <= a < n ==> bal[a] == Total(log, keep, a)
  {
    bal := seq(n, a => 0);
    for k := 0 to |log|
      invariant |bal| == n && forall a :: 0 <= a < n ==> bal[a] == Total(log[..k], keep, a)
    {
      assert log[..k + 1][..k] == log[..k];
      var ls := log[k].lines;
      if keep(log[k]) {
        for j := 0 to |ls|
          invariant |bal| == n && forall a :: 0 <= a < n ==> bal[a] == Total(log[..k], keep, a) + Delta(ls[..j], a)
        {
          assert ls[..j + 1][..j] == ls[..j];
          bal := bal[ls[j].acct := bal[ls[j].acct] + ls[j].amt];
        }
        assert ls[..|ls|] == ls;
      }
    }
    assert log[..|log|] == log;
  }
}
