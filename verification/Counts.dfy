/** Cash counts: each difference is posted to Adjustments, in date order, and afterwards the book agrees with what
    was counted. */
module Counts {
  import opened Lines
  import opened EventLog

  /** A count of a cash account: what was found over (or short of) the book. */
  datatype Count = Count(date: int, acct: nat, diff: int)

  /** The difference, posted on the day of the count. */
  function Difference(c: Count, adj: nat): Entry {
    NewEntry(c.date, c.date,
             if c.diff < 0 then [Line(adj, -c.diff), Line(c.acct, c.diff)]
               else [Line(c.acct, c.diff), Line(adj, -c.diff)],
             CountDiff)
  }

  function AfterOne(log: Log, c: Count, adj: nat): Log {
    if c.diff != 0 then log + [Difference(c, adj)] else log
  }

  /** The log after all the counts. */
  function After(log: Log, cs: seq<Count>, adj: nat): Log {
    if cs == [] then log else AfterOne(After(log, cs[..|cs| - 1], adj), cs[|cs| - 1], adj)
  }

  /** What was counted: the book's balance when the count was reached, and the difference. */
  function CountedAt(log: Log, cs: seq<Count>, adj: nat, k: nat): int
    requires k < |cs|
  {
    Bal(After(log, cs[..k], adj), cs[k].acct, cs[k].date) + cs[k].diff
  }

  /** What was counted each time, up to the `n`th. */
  function CountedUpto(log: Log, cs: seq<Count>, adj: nat, n: nat): (r: seq<int>)
    requires n <= |cs|
    ensures |r| == n
  {
    if n == 0 then [] else CountedUpto(log, cs, adj, n - 1) + [CountedAt(log, cs, adj, n - 1)]
  }

  lemma {:induction false} CountedOneByOne(log: Log, cs: seq<Count>, adj: nat, n: nat, k: nat)
    requires k < n <= |cs|
    ensures CountedUpto(log, cs, adj, n)[k] == CountedAt(log, cs, adj, k)
  {
    if k < n - 1 {
      CountedOneByOne(log, cs, adj, n - 1, k);
    }
  }

  lemma {:induction false} OneMoreCount(log: Log, cs: seq<Count>, adj: nat, k: nat)
    requires k < |cs|
    ensures After(log, cs[..k + 1], adj) == AfterOne(After(log, cs[..k], adj), cs[k], adj)
  {
    assert cs[..k + 1][..k] == cs[..k];
  }

  /** Processing in date order. */
  method PostCounts(log0: Log, cs: seq<Count>, adj: nat) returns (log: Log, counted: seq<int>)
    ensures log == After(log0, cs, adj)
    ensures |counted| == |cs| && forall k :: 0 <= k < |cs| ==> counted[k] == CountedAt(log0, cs, adj, k)
  {
    log, counted := log0, [];
    for k := 0 to |cs|
      invariant log == After(log0, cs[..k], adj) && counted == CountedUpto(log0, cs, adj, k)
    {
      var found;
      log, found := PostCount(log, cs[k], adj);
      counted := counted + [found];
      OneMoreCount(log0, cs, adj, k);
    }
    assert cs[..|cs|] == cs;
    forall k | 0 <= k < |cs| ensures counted[k] == CountedAt(log0, cs, adj, k) {
      CountedOneByOne(log0, cs, adj, |cs|, k);
    }
  }

  /** One count: the book's balance and the difference; a shortage is taken from the account, an excess put on it. */
  method PostCount(log0: Log, c: Count, adj: nat) returns (log: Log, found: int)
    ensures log == AfterOne(log0, c, adj) && found == Bal(log0, c.acct, c.date) + c.diff
  {
    log, found := log0, Bal(log0, c.acct, c.date) + c.diff;
    if c.diff < 0 {
      log := log + [NewEntry(c.date, c.date, [Line(adj, -c.diff), Line(c.acct, c.diff)], CountDiff)];
    } else if c.diff > 0 {
      log := log + [NewEntry(c.date, c.date, [Line(c.acct, c.diff), Line(adj, -c.diff)], CountDiff)];
    }
  }

  lemma {:induction false} TwoLines(l: Line, m: Line, a: int)
    ensures Delta([l, m], a) == (if l.acct == a then l.amt else 0) + (if m.acct == a then m.amt else 0)
    ensures Net([l, m]) == l.amt + m.amt
  {
    assert [l, m][..1] == [l] && [l][..0] == [];
    assert Delta([l], a) == (if l.acct == a then l.amt else 0) && Net([l]) == l.amt;
  }

  lemma OneCountMoves(log: Log, c: Count, adj: nat, a: int, asOf: int)
    ensures Bal(AfterOne(log, c, adj), a, asOf) == Bal(log, a, asOf)
      + (if c.date <= asOf then (if a == c.acct then c.diff else 0) - (if a == adj then c.diff else 0) else 0)
  {
    if c.diff < 0 {
      TwoLines(Line(adj, -c.diff), Line(c.acct, c.diff), a);
    } else {
      TwoLines(Line(c.acct, c.diff), Line(adj, -c.diff), a);
    }
    TotalSnoc(log, Difference(c, adj), AsOf(asOf), a);
  }

  /** The differences on one account up to a date. */
  function Found(cs: seq<Count>, a: int, asOf: int): int {
    if cs == [] then 0
    else
      var c := cs[|cs| - 1];
      Found(cs[..|cs| - 1], a, asOf) + (if c.acct == a && c.date <= asOf then c.diff else 0)
  }

  /** All differences up to a date. */
  function FoundInAll(cs: seq<Count>, asOf: int): int {
    if cs == [] then 0
    else
      var c := cs[|cs| - 1];
      FoundInAll(cs[..|cs| - 1], asOf) + (if c.date <= asOf then c.diff else 0)
  }

  /** The counts move each account by its own differences, and Adjustments by all of them, turned. */
  lemma {:induction false} CountsMove(log: Log, cs: seq<Count>, adj: nat, a: int, asOf: int)
    ensures Bal(After(log, cs, adj), a, asOf) == Bal(log, a, asOf)
      + Found(cs, a, asOf) - (if a == adj then FoundInAll(cs, asOf) else 0)
  {
    if cs != [] {
      var pre, c := cs[..|cs| - 1], cs[|cs| - 1];
      CountsMove(log, pre, adj, a, asOf);
      OneCountMoves(After(log, pre, adj), c, adj, a, asOf);
    }
  }

  /** Adjustments, which is never itself counted, ends lower by exactly the sum of the differences. */
  lemma {:induction false} AdjustmentsTakeTheDifferences(log: Log, cs: seq<Count>, adj: nat, asOf: int)
    requires forall k :: 0 <= k < |cs| ==> cs[k].acct != adj && cs[k].date <= asOf
    ensures Bal(After(log, cs, adj), adj, asOf) == Bal(log, adj, asOf) - DiffSum(cs)
  {
    CountsMove(log, cs, adj, adj, asOf);
    NothingFound(cs, adj, asOf);
    AllFound(cs, asOf);
  }

  function DiffSum(cs: seq<Count>): int {
    if cs == [] then 0 else DiffSum(cs[..|cs| - 1]) + cs[|cs| - 1].diff
  }

  lemma {:induction false} NothingFound(cs: seq<Count>, a: int, asOf: int)
    requires forall k :: 0 <= k < |cs| ==> cs[k].acct != a || cs[k].date > asOf
    ensures Found(cs, a, asOf) == 0
  {
    if cs != [] {
      NothingFound(cs[..|cs| - 1], a, asOf);
    }
  }

  lemma {:induction false} AllFound(cs: seq<Count>, asOf: int)
    requires forall k :: 0 <= k < |cs| ==> cs[k].date <= asOf
    ensures FoundInAll(cs, asOf) == DiffSum(cs)
  {
    if cs != [] {
      AllFound(cs[..|cs| - 1], asOf);
    }
  }

  lemma {:induction false} FoundConcat(a: seq<Count>, b: seq<Count>, acct: int, asOf: int)
    ensures Found(a + b, acct, asOf) == Found(a, acct, asOf) + Found(b, acct, asOf)
  {
    if b == [] {
      assert a + b == a;
    } else {
      assert (a + b)[..|a + b| - 1] == a + b[..|b| - 1];
      FoundConcat(a, b[..|b| - 1], acct, asOf);
    }
  }

  /** The counts in date order, each account's own order kept. */
  predicate ByDate(cs: seq<Count>) {
    forall j, k :: 0 <= j <= k < |cs| ==> cs[j].date <= cs[k].date
  }

  /** After all the counts are posted the book agrees with a count exactly when the later counts of the same account
      on the same day cancel; what is found on later days never reaches back. */
  lemma {:induction false} CountHolds(log: Log, cs: seq<Count>, adj: nat, k: nat)
    requires ByDate(cs) && k < |cs| && forall j :: 0 <= j < |cs| ==> cs[j].acct != adj
    ensures Bal(After(log, cs, adj), cs[k].acct, cs[k].date) == CountedAt(log, cs, adj, k)
       <==> Found(cs[k + 1..], cs[k].acct, cs[k].date) == 0
  {
    var c := cs[k];
    CountsMove(log, cs, adj, c.acct, c.date);
    CountsMove(log, cs[..k], adj, c.acct, c.date);
    assert cs == cs[..k] + [c] + cs[k + 1..];
    FoundConcat(cs[..k] + [c], cs[k + 1..], c.acct, c.date);
    FoundConcat(cs[..k], [c], c.acct, c.date);
    assert [c][..0] == [];
  }

  /** With at most one count of an account on a day, every count holds once all are posted. */
  lemma {:induction false} EveryCountHolds(log: Log, cs: seq<Count>, adj: nat, k: nat)
    requires ByDate(cs) && k < |cs| && forall j :: 0 <= j < |cs| ==> cs[j].acct != adj
    requires forall i, j :: 0 <= i < j < |cs| ==> cs[i].acct != cs[j].acct || cs[i].date != cs[j].date
    ensures Bal(After(log, cs, adj), cs[k].acct, cs[k].date) == CountedAt(log, cs, adj, k)
  {
    CountHolds(log, cs, adj, k);
    NothingFound(cs[k + 1..], cs[k].acct, cs[k].date);
  }
}
