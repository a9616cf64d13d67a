/** Every run of the log: what the validator admits, how entries chain, and what corrections do to balances. */
module Chains {
  import opened Totals
  import opened Lines
  import opened Options
  import opened EventLog

  /** A book in time: the day it starts on, its log, its locked months with the day each was locked, and the latest day
      seen. */
  datatype World = World(start: int, accounts: nat, log: Log, locks: map<nat, int>, clock: int)

  datatype Event =
    | Post(date: int, authored: int, lines: seq<Line>, tag: Tag)
    | Amend(original: nat, date: int, authored: int, lines: seq<Line>)
    | Reverse(original: nat, date: int, authored: int)
    | LockMonth(month: nat, on: int)

  /** Nothing is authored into a month once it is locked; a date before the year is in no month that can be. */
  predicate BeforeLock(locks: map<nat, int>, date: int, authored: int) {
    FY_START <= date && Month(date) in locks ==> authored < locks[Month(date)]
  }

  predicate EntryAdmitted(w: World, date: int, authored: int, lines: seq<Line>) {
    && w.start <= date <= authored && w.clock <= authored
    && InChart(lines, w.accounts) && Net(lines) == 0
    && BeforeLock(w.locks, date, authored)
  }

  /** What the validator's rules let through, day by day. An amendment must also come before the lock of the original's
      month. */
  predicate Admitted(w: World, ev: Event) {
    match ev
    case Post(date, authored, lines, tag) => EntryAdmitted(w, date, authored, lines)
    case Amend(i, date, authored, lines) =>
      && i < |w.log| && IsHead(w.log[i])
      && EntryAdmitted(w, date, authored, lines) && BeforeLock(w.locks, w.log[i].date, authored)
    case Reverse(i, date, authored) =>
      && i < |w.log| && w.log[i].reversedBy.None?
      && EntryAdmitted(w, date, authored, Negated(w.log[i].lines))
    case LockMonth(m, on) => m < 12 && m !in w.locks && w.clock <= on
  }

  function Apply(w: World, ev: Event): World
    requires Admitted(w, ev)
  {
    match ev
    case Post(date, authored, lines, tag) =>
      w.(log := Posted(w.log, NewEntry(date, authored, lines, tag)), clock := authored)
    case Amend(i, date, authored, lines) => w.(log := Amended(w.log, i, date, authored, lines), clock := authored)
    case Reverse(i, date, authored) => w.(log := Reversed(w.log, i, date, authored), clock := authored)
    case LockMonth(m, on) => w.(locks := w.locks[m := on], clock := on)
  }

  predicate Runs(w: World, evs: seq<Event>, end: World)
    decreases |evs|
  {
    if evs == [] then w == end
    else Admitted(w, evs[0]) && Runs(Apply(w, evs[0]), evs[1..], end)
  }

  function Start(start: int, accounts: nat): World {
    World(start, accounts, [], map[], start)
  }

  // ------------------------------------------------------------------ the links

  predicate AmendLink(log: Log, i: nat)
    requires i < |log|
  {
    && (log[i].amendedBy.Some? ==> var j := log[i].amendedBy.value; i < j < |log| && log[j].amends == Some(i))
    && (log[i].amends.Some? ==> var k := log[i].amends.value; k < i && log[k].amendedBy == Some(i))
  }

  predicate ReverseLink(log: Log, i: nat)
    requires i < |log|
  {
    && (log[i].reversedBy.Some? ==>
          var j := log[i].reversedBy.value;
          i < j < |log| && log[j].reverses == Some(i) && log[j].lines == Negated(log[i].lines))
    && (log[i].reverses.Some? ==> var k := log[i].reverses.value; k < i && log[k].reversedBy == Some(i))
  }

  predicate Linked(log: Log) {
    forall i :: 0 <= i < |log| ==> AmendLink(log, i) && ReverseLink(log, i)
  }

  /** Every link goes forward in the log and is answered by a link back; every entry balances. */
  predicate Sound(w: World) {
    Linked(w.log) && DoubleEntries(w.log, w.accounts)
  }

  lemma PostKeepsLinks(log: Log, e: Entry)
    requires Linked(log) && e.amends.None? && e.amendedBy.None? && e.reverses.None? && e.reversedBy.None?
    ensures Linked(Posted(log, e))
  {
    var next := Posted(log, e);
    forall i | 0 <= i < |next| ensures AmendLink(next, i) && ReverseLink(next, i) {
      if i < |log| {
        assert AmendLink(log, i) && ReverseLink(log, i);
      }
    }
  }

  lemma AmendKeepsLinks(log: Log, o: nat, date: int, authored: int, lines: seq<Line>)
    requires Linked(log) && o < |log| && IsHead(log[o])
    ensures Linked(Amended(log, o, date, authored, lines))
  {
    var next := Amended(log, o, date, authored, lines);
    forall i | 0 <= i < |next| ensures AmendLink(next, i) && ReverseLink(next, i) {
      if i < |log| {
        assert AmendLink(log, i) && ReverseLink(log, i);
      }
    }
  }

  lemma ReverseKeepsLinks(log: Log, o: nat, date: int, authored: int)
    requires Linked(log) && o < |log| && log[o].reversedBy.None?
    ensures Linked(Reversed(log, o, date, authored))
  {
    var next := Reversed(log, o, date, authored);
    forall i | 0 <= i < |next| ensures AmendLink(next, i) && ReverseLink(next, i) {
      if i < |log| {
        assert AmendLink(log, i) && ReverseLink(log, i);
      }
    }
  }

  lemma EventKeepsSound(w: World, ev: Event)
    requires Sound(w) && Admitted(w, ev)
    ensures Sound(Apply(w, ev))
  {
    match ev
    case Post(date, authored, lines, tag) => PostKeepsLinks(w.log, NewEntry(date, authored, lines, tag));
    case Amend(i, date, authored, lines) => AmendKeepsLinks(w.log, i, date, authored, lines);
    case Reverse(i, date, authored) => ReverseKeepsLinks(w.log, i, date, authored);
    case LockMonth(m, on) =>
  }

  lemma {:induction false} RunKeepsSound(w: World, evs: seq<Event>, end: World)
    requires Sound(w) && Runs(w, evs, end)
    ensures Sound(end) && end.accounts == w.accounts && end.start == w.start
    decreases |evs|
  {
    if evs != [] {
      EventKeepsSound(w, evs[0]);
      RunKeepsSound(Apply(w, evs[0]), evs[1..], end);
    }
  }

  /** On every run, on every date: all accounts together are nil. */
  lemma {:induction false} RunsStayBalanced(start: int, accounts: nat, evs: seq<Event>, end: World,
      asOf: int)
    requires Runs(Start(start, accounts), evs, end)
    ensures SumTo(TotalOf(end.log, AsOf(asOf)), accounts) == 0
  {
    RunKeepsSound(Start(start, accounts), evs, end);
    AccountsTogetherAreNil(end.log, AsOf(asOf), accounts);
  }

  // ------------------------------------------------------------------ chains

  /** The first entry of a chain, and its last. */
  function Root(log: Log, i: nat): nat
    requires Linked(log) && i < |log|
    decreases i
  {
    assert AmendLink(log, i);
    if log[i].amends.Some? then Root(log, log[i].amends.value) else i
  }

  function HeadOf(log: Log, i: nat): nat
    requires Linked(log) && i < |log|
    decreases |log| - i
  {
    assert AmendLink(log, i);
    if log[i].amendedBy.Some? then HeadOf(log, log[i].amendedBy.value) else i
  }

  lemma {:induction false} HeadOfIsAHead(log: Log, i: nat)
    requires Linked(log) && i < |log|
    ensures HeadOf(log, i) < |log| && IsHead(log[HeadOf(log, i)]) && i <= HeadOf(log, i)
    ensures Root(log, HeadOf(log, i)) == Root(log, i)
    decreases |log| - i
  {
    assert AmendLink(log, i);
    if log[i].amendedBy.Some? {
      HeadOfIsAHead(log, log[i].amendedBy.value);
    }
  }

  lemma {:induction false} ChainSharesItsHead(log: Log, i: nat)
    requires Linked(log) && i < |log|
    ensures Root(log, i) <= i && HeadOf(log, Root(log, i)) == HeadOf(log, i)
    decreases i
  {
    assert AmendLink(log, i);
    if log[i].amends.Some? {
      ChainSharesItsHead(log, log[i].amends.value);
      assert AmendLink(log, log[i].amends.value);
    }
  }

  /** Amend links part the log into chains, and of every chain exactly one entry counts: for any two entries of one
      chain that count, they are the same entry; and every chain has one. */
  lemma {:induction false} OneHeadAChain(log: Log, i: nat, j: nat)
    requires Linked(log) && i < |log| && j < |log|
    ensures Root(log, i) == Root(log, j) <==> HeadOf(log, i) == HeadOf(log, j)
    ensures IsHead(log[j]) && Root(log, j) == Root(log, i) <==> j == HeadOf(log, i)
  {
    ChainSharesItsHead(log, i);
    ChainSharesItsHead(log, j);
    HeadOfIsAHead(log, i);
    HeadOfIsAHead(log, j);
  }

  // ------------------------------------------------------------------ what a correction does

  /** An amendment puts the new lines in the place of the old, each from its own date. */
  lemma {:induction false} AmendmentReplaces(log: Log, i: nat, date: int, authored: int, lines: seq<Line>, a: int,
      asOf: int)
    requires i < |log| && IsHead(log[i])
    ensures Bal(Amended(log, i, date, authored, lines), a, asOf)
         == Bal(log, a, asOf)
            + (if date <= asOf then Delta(lines, a) else 0)
              - (if log[i].date <= asOf then Delta(log[i].lines, a) else 0)
  {
    var marked := log[i].(amendedBy := Some(|log|));
    TotalUpdate(log, i, marked, AsOf(asOf), a);
    TotalSnoc(log[i := marked], NewEntry(date, authored, lines, log[i].tag).(amends := Some(i)), AsOf(asOf), a);
  }

  /** The log with two entries left out of the count. */
  function Without(log: Log, i: nat, j: nat): Log
    requires i < |log| && j < |log|
  {
    log[i := log[i].(amendedBy := Some(i))][j := log[j].(amendedBy := Some(j))]
  }

  /** An entry that still counts and its reversal: on every account, from the later of their dates, the balance is
      what it is without the two of them. */
  lemma ReversalNetsToNil(log: Log, i: nat, a: int, asOf: int)
    requires Linked(log) && i < |log| && log[i].reversedBy.Some?
    requires IsHead(log[i]) && log[i].reversedBy.value < |log| && IsHead(log[log[i].reversedBy.value])
    requires log[i].date <= asOf && log[log[i].reversedBy.value].date <= asOf
    ensures Bal(log, a, asOf) == Bal(Without(log, i, log[i].reversedBy.value), a, asOf)
  {
    assert ReverseLink(log, i);
    var j := log[i].reversedBy.value;
    var x, y := log[i].(amendedBy := Some(i)), log[j].(amendedBy := Some(j));
    NegatedUndoes(log[i].lines, a);
    TotalUpdate(log, i, x, AsOf(asOf), a);
    TotalUpdate(log[i := x], j, y, AsOf(asOf), a);
  }

  /** Reversing leaves every balance before the reversal's date as it was, and takes the entry's lines off after it. */
  lemma {:induction false} ReversalTakesOff(log: Log, i: nat, date: int, authored: int, a: int, asOf: int)
    requires i < |log|
    ensures Bal(Reversed(log, i, date, authored), a, asOf)
         == Bal(log, a, asOf) - (if date <= asOf then Delta(log[i].lines, a) else 0)
  {
    var marked := log[i].(reversedBy := Some(|log|));
    NegatedUndoes(log[i].lines, a);
    TotalUpdate(log, i, marked, AsOf(asOf), a);
    TotalSnoc(log[i := marked], NewEntry(date, authored, Negated(log[i].lines), Plain).(reverses := Some(i)),
      AsOf(asOf), a);
  }

  // ------------------------------------------------------------------ locked months

  /** No lock is later than the latest day seen, and no entry is dated before the book starts. */
  predicate InTime(w: World) {
    && (forall m :: m in w.locks ==> m < 12 && w.locks[m] <= w.clock)
    && (forall k :: 0 <= k < |w.log| ==> w.log[k].date >= w.start)
  }

  /** Every day the book may date an entry on, up to the end of month `m`, lies in a locked month: the book starts with
      the year or later, and no month from its first one to `m` is open. */
  predicate Sealed(w: World, m: nat) {
    w.start <= MonthEnd(m) ==>
      w.start >= FY_START && forall k :: Month(w.start) <= k <= m ==> k in w.locks
  }

  /** An entry admitted from now on is dated after a sealed month. */
  lemma AdmittedIsLater(w: World, m: nat, date: int, authored: int)
    requires InTime(w) && m < 12 && Sealed(w, m)
    requires w.start <= date && w.clock <= authored && BeforeLock(w.locks, date, authored)
    ensures date > MonthEnd(m)
  {
    MonthEndsAMonth(date, m);
    assert Month(w.start) <= Month(date);
  }

  lemma EventKeepsSealedMonths(w: World, ev: Event, m: nat, a: int)
    requires InTime(w) && m < 12 && Sealed(w, m) && Admitted(w, ev)
    ensures Sealed(Apply(w, ev), m)
    ensures Bal(Apply(w, ev).log, a, MonthEnd(m)) == Bal(w.log, a, MonthEnd(m))
  {
    match ev
    case Post(date, authored, lines, tag) =>
      AdmittedIsLater(w, m, date, authored);
      TotalSnoc(w.log, NewEntry(date, authored, lines, tag), AsOf(MonthEnd(m)), a);
    case Amend(i, date, authored, lines) =>
      AdmittedIsLater(w, m, date, authored);
      AdmittedIsLater(w, m, w.log[i].date, authored);
      AmendmentReplaces(w.log, i, date, authored, lines, a, MonthEnd(m));
    case Reverse(i, date, authored) =>
      AdmittedIsLater(w, m, date, authored);
      ReversalTakesOff(w.log, i, date, authored, a, MonthEnd(m));
    case LockMonth(k, on) =>
  }

  lemma EventKeepsTime(w: World, ev: Event)
    requires InTime(w) && Admitted(w, ev)
    ensures InTime(Apply(w, ev))
  {
  }

  lemma {:induction false} RunKeepsTime(w: World, evs: seq<Event>, end: World)
    requires InTime(w) && Runs(w, evs, end)
    ensures InTime(end)
    decreases |evs|
  {
    if evs != [] {
      EventKeepsTime(w, evs[0]);
      RunKeepsTime(Apply(w, evs[0]), evs[1..], end);
    }
  }

  /** Over every run: once a month is sealed, no account's balance at that month's end ever moves again. */
  lemma {:induction false} SealedFiguresNeverMove(w: World, evs: seq<Event>, end: World, m: nat, a: int)
    requires InTime(w) && m < 12 && Sealed(w, m) && Runs(w, evs, end)
    ensures Bal(end.log, a, MonthEnd(m)) == Bal(w.log, a, MonthEnd(m))
    decreases |evs|
  {
    if evs != [] {
      EventKeepsSealedMonths(w, evs[0], m, a);
      EventKeepsTime(w, evs[0]);
      SealedFiguresNeverMove(Apply(w, evs[0]), evs[1..], end, m, a);
    }
  }

  /** A day up to the end of month `m` that no lock covers. */
  lemma OpenDay(w: World, m: nat) returns (day: int)
    requires m < 12 && !Sealed(w, m)
    ensures w.start <= day <= MonthEnd(m) && (day < FY_START || Month(day) !in w.locks)
  {
    if w.start < FY_START {
      day := w.start;
    } else {
      var k :| Month(w.start) <= k <= m && k !in w.locks;
      day := if w.start <= MonthStart(k) then MonthStart(k) else w.start;
      MonthEndsAMonth(w.start, k);
      MonthsInOrder(k, m);
      MonthOf(day, k);
    }
  }

  /** A month that is not sealed: one more admitted entry moves its figure. */
  lemma OpenFigureMoves(w: World, m: nat, a: nat, other: nat) returns (ev: Event)
    requires m < 12 && !Sealed(w, m) && a < w.accounts && other < w.accounts && a != other
    ensures Admitted(w, ev) && Bal(Apply(w, ev).log, a, MonthEnd(m)) == Bal(w.log, a, MonthEnd(m)) + 1
  {
    var day := OpenDay(w, m);
    var authored := if day <= w.clock then w.clock else day;
    var lines := [Line(a, 1), Line(other, -1)];
    PairOfLines(a, other);
    ev := Post(day, authored, lines, Plain);
    TotalSnoc(w.log, NewEntry(day, authored, lines, Plain), AsOf(MonthEnd(m)), a);
  }

  /** One paisa from one account to another. */
  lemma {:induction false} PairOfLines(a: nat, other: nat)
    requires a != other
    ensures var ls := [Line(a, 1), Line(other, -1)];
      Net(ls) == 0 && Delta(ls, a) == 1 && forall n :: a < n && other < n ==> InChart(ls, n)
  {
    var ls := [Line(a, 1), Line(other, -1)];
    assert ls[..1] == [Line(a, 1)] && ls[..1][..0] == [];
    assert Net(ls[..1]) == 1 && Delta(ls[..1], a) == 1;
  }

  /** Whatever is admitted from now on, the account's balance on that day stays what it is. */
  ghost predicate FigureNeverMoves(w: World, a: int, day: int) {
    forall evs, end :: Runs(w, evs, end) ==> Bal(end.log, a, day) == Bal(w.log, a, day)
  }

  /** The figures of a month stay where they are over every run exactly when the month is sealed: locking it is enough
      once the earlier months are locked, in a book that starts with the year, and never in one that starts before. */
  lemma {:induction false} LockedFiguresNeverMove(w: World, m: nat, a: nat)
    requires InTime(w) && m < 12 && a < w.accounts && w.accounts >= 2
    ensures Sealed(w, m) <==> FigureNeverMoves(w, a, MonthEnd(m))
  {
    if Sealed(w, m) {
      forall evs, end | Runs(w, evs, end) ensures Bal(end.log, a, MonthEnd(m)) == Bal(w.log, a, MonthEnd(m)) {
        SealedFiguresNeverMove(w, evs, end, m, a);
      }
    } else {
      var ev := OpenFigureMoves(w, m, a, if a == 0 then 1 else 0);
      assert [ev][1..] == [] && Runs(Apply(w, ev), [], Apply(w, ev));
      assert Runs(w, [ev], Apply(w, ev));
    }
  }

  /** From the first day on: whatever was admitted before and whatever after. */
  lemma {:induction false} FiguresFromTheStart(start: int, accounts: nat, before: seq<Event>, w: World,
      m: nat, a: nat)
    requires Runs(Start(start, accounts), before, w) && m < 12 && a < accounts && accounts >= 2
    ensures Sealed(w, m) <==> FigureNeverMoves(w, a, MonthEnd(m))
  {
    RunKeepsTime(Start(start, accounts), before, w);
    RunKeepsSound(Start(start, accounts), before, w);
    LockedFiguresNeverMove(w, m, a);
  }
}
