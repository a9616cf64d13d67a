/** The lender's statement: level instalments, interest on what is still owed rounded half-up to the rupee. */
module Loan {
  import opened Arith
  import opened Sharing

  /** Interest for one month on `bal` paise at `rateBp` basis points a year, rounded to the rupee. */
  function MonthInterest(bal: nat, rateBp: nat): nat {
    HalfUp(bal * rateBp, RUPEE_MONTH) * 100
  }

  /** Basis points in one, months in a year, paise in a rupee: 10000 * 12 * 100. */
  const RUPEE_MONTH := 12000000

  /** What is owed after `k` instalments; None once the statement has stopped because more than the loan was paid
      back. */
  datatype Owed = Stopped | Owing(bal: int)

  function After(principal: nat, rateBp: nat, emi: int, k: nat): Owed {
    if k == 0 then Owing(principal)
    else
      var before := After(principal, rateBp, emi, k - 1);
      if before.Stopped? || before.bal < 0 then Stopped
      else Owing(before.bal - (emi - MonthInterest(before.bal, rateBp)))
  }

  /** One row of the statement. */
  datatype Instalment = Instalment(interest: nat, principal: int)

  /** The rows are the statement's first ones. */
  predicate StatementRows(principal: nat, rateBp: nat, emi: int, rows: seq<Instalment>) {
    forall k :: 0 <= k < |rows| ==> IsRow(principal, rateBp, emi, k, rows[k])
  }

  predicate IsRow(principal: nat, rateBp: nat, emi: int, k: nat, row: Instalment) {
    var owed := After(principal, rateBp, emi, k);
    owed.Owing? && owed.bal >= 0 && row == RowAt(principal, rateBp, emi, k)
  }

  /** `ok` is false when half-up rounding is asked for a negative balance. */
  method Schedule(principal: nat, rateBp: nat, emi: int, count: nat) returns (rows: seq<Instalment>, bal: int, ok: bool)
    ensures ok <==> After(principal, rateBp, emi, count).Owing?
    ensures ok ==> |rows| == count && After(principal, rateBp, emi, count) == Owing(bal)
    ensures StatementRows(principal, rateBp, emi, rows) && IsStatement(principal, rateBp, emi, rows)
    ensures bal == principal - Principals(rows) && (!ok ==> bal < 0)
  {
    rows, bal, ok := [], principal, true;
    for i := 0 to count
      invariant |rows| == i && After(principal, rateBp, emi, i) == Owing(bal)
      invariant StatementRows(principal, rateBp, emi, rows)
    {
      if bal < 0 {
        StoppedStays(principal, rateBp, emi, i + 1, count);
        RowsMakeAStatement(principal, rateBp, emi, rows, bal);
        return rows, bal, false;
      }
      var interest := MonthInterest(bal, rateBp);
      assert IsRow(principal, rateBp, emi, i, Instalment(interest, emi - interest));
      rows := rows + [Instalment(interest, emi - interest)];
      bal := bal - (emi - interest);
    }
    RowsMakeAStatement(principal, rateBp, emi, rows, bal);
  }

  /** The rows read without the recurrence behind them. */
  lemma {:induction false} RowsMakeAStatement(principal: nat, rateBp: nat, emi: int, rows: seq<Instalment>, bal: int)
    requires StatementRows(principal, rateBp, emi, rows) && After(principal, rateBp, emi, |rows|) == Owing(bal)
    ensures IsStatement(principal, rateBp, emi, rows) && bal == principal - Principals(rows)
  {
    if rows != [] {
      var n := |rows| - 1;
      var before := After(principal, rateBp, emi, n);
      assert IsRow(principal, rateBp, emi, n, rows[n]);
      RowsMakeAStatement(principal, rateBp, emi, rows[..n], before.bal);
      MonthInterestIsNearest(before.bal, rateBp, rows[n].interest);
    }
  }

  /** What the rows pay back. */
  function Principals(rows: seq<Instalment>): int {
    if rows == [] then 0 else Principals(rows[..|rows| - 1]) + rows[|rows| - 1].principal
  }

  /** One month's interest in paise: whole rupees, the nearest to a twelfth of so many hundredths of a percent of what
      is owed, half a rupee going up. */
  predicate IsMonthInterest(owed: int, rateBp: nat, interest: int) {
    interest % 100 == 0 && 2 * (owed * rateBp) - 12000000 < 240000 * interest <= 2 * (owed * rateBp) + 12000000
  }

  /** Row by row: the loan is not overpaid, the interest is on what is owed, and the two parts are the instalment. */
  predicate IsStatement(principal: nat, rateBp: nat, emi: int, rows: seq<Instalment>) {
    if rows == [] then true
    else
      var pre, row := rows[..|rows| - 1], rows[|rows| - 1];
      && IsStatement(principal, rateBp, emi, pre) && principal >= Principals(pre)
      && IsMonthInterest(principal - Principals(pre), rateBp, row.interest) && row.interest + row.principal == emi
  }

  lemma MonthInterestIsNearest(bal: nat, rateBp: nat, interest: int)
    ensures interest == MonthInterest(bal, rateBp) <==> IsMonthInterest(bal, rateBp, interest)
  {
    HalfUpIsNearest(bal * rateBp, RUPEE_MONTH, interest / 100);
  }

  function RowAt(principal: nat, rateBp: nat, emi: int, k: nat): Instalment
    requires After(principal, rateBp, emi, k).Owing? && After(principal, rateBp, emi, k).bal >= 0
  {
    var interest := MonthInterest(After(principal, rateBp, emi, k).bal, rateBp);
    Instalment(interest, emi - interest)
  }

  lemma {:induction false} StoppedStays(principal: nat, rateBp: nat, emi: int, k: nat, n: nat)
    requires k <= n && After(principal, rateBp, emi, k).Stopped?
    ensures After(principal, rateBp, emi, n).Stopped?
  {
    if k < n {
      StoppedStays(principal, rateBp, emi, k, n - 1);
    }
  }

  lemma RunsBefore(principal: nat, rateBp: nat, emi: int, k: nat, n: nat)
    requires k < n && After(principal, rateBp, emi, n).Owing?
    ensures After(principal, rateBp, emi, k).Owing? && After(principal, rateBp, emi, k).bal >= 0
    ensures After(principal, rateBp, emi, k + 1).Owing?
  {
    if After(principal, rateBp, emi, k + 1).Stopped? {
      StoppedStays(principal, rateBp, emi, k + 1, n);
    }
  }

  /** The principal parts paid so far. */
  function PaidBack(principal: nat, rateBp: nat, emi: int, n: nat): int
    requires After(principal, rateBp, emi, n).Owing?
  {
    if n == 0 then 0
    else
      RunsBefore(principal, rateBp, emi, n - 1, n);
      PaidBack(principal, rateBp, emi, n - 1) + RowAt(principal, rateBp, emi, n - 1).principal
  }

  /** The loan is what has been paid back and what is still owed. */
  lemma {:induction false} LoanIsPaidBackAndOwed(principal: nat, rateBp: nat, emi: int, n: nat)
    requires After(principal, rateBp, emi, n).Owing?
    ensures PaidBack(principal, rateBp, emi, n) + After(principal, rateBp, emi, n).bal == principal
  {
    if n > 0 {
      RunsBefore(principal, rateBp, emi, n - 1, n);
      LoanIsPaidBackAndOwed(principal, rateBp, emi, n - 1);
    }
  }

  lemma InterestMonotone(a: nat, b: nat, rateBp: nat)
    requires a <= b
    ensures MonthInterest(a, rateBp) <= MonthInterest(b, rateBp)
  {
    MulLe(a, b, rateBp);
    HalfUpMonotone(a * rateBp, b * rateBp, RUPEE_MONTH);
  }

  /** With an EMI above the first month's interest every instalment pays something back. */
  lemma {:induction false} OwedFalls(principal: nat, rateBp: nat, emi: int, n: nat)
    requires emi > MonthInterest(principal, rateBp)
    requires After(principal, rateBp, emi, n).Owing? && After(principal, rateBp, emi, n).bal >= 0
    ensures After(principal, rateBp, emi, n).bal <= principal
    ensures MonthInterest(After(principal, rateBp, emi, n).bal, rateBp) < emi
    ensures After(principal, rateBp, emi, n + 1).Owing?
         && After(principal, rateBp, emi, n + 1).bal < After(principal, rateBp, emi, n).bal
  {
    if n > 0 {
      RunsBefore(principal, rateBp, emi, n - 1, n);
      OwedFalls(principal, rateBp, emi, n - 1);
    }
    InterestMonotone(After(principal, rateBp, emi, n).bal, principal, rateBp);
  }

  /** From one row of the statement to any later one the interest never rises and the principal part never falls. */
  lemma {:induction false} InterestFallsPrincipalRises(principal: nat, rateBp: nat, emi: int, j: nat, k: nat)
    requires emi > MonthInterest(principal, rateBp) && j <= k
    requires After(principal, rateBp, emi, k).Owing? && After(principal, rateBp, emi, k).bal >= 0
    ensures After(principal, rateBp, emi, j).Owing?
         && After(principal, rateBp, emi, j).bal >= After(principal, rateBp, emi, k).bal
    ensures RowAt(principal, rateBp, emi, k).interest <= RowAt(principal, rateBp, emi, j).interest
    ensures 0 < RowAt(principal, rateBp, emi, j).principal <= RowAt(principal, rateBp, emi, k).principal
  {
    if j < k {
      RunsBefore(principal, rateBp, emi, k - 1, k);
      OwedFalls(principal, rateBp, emi, k - 1);
      InterestFallsPrincipalRises(principal, rateBp, emi, j, k - 1);
      InterestMonotone(After(principal, rateBp, emi, k).bal, After(principal, rateBp, emi, k - 1).bal, rateBp);
    } else {
      OwedFalls(principal, rateBp, emi, k);
    }
  }

  // ------------------------------------------------------------------ against the unrounded loan

  function Rate(rateBp: nat): real {
    rateBp as real / 120000.0
  }

  /** What would be owed with interest not rounded at all. */
  function Exact(principal: nat, rateBp: nat, emi: int, n: nat): real {
    if n == 0 then principal as real
    else Grown(Exact(principal, rateBp, emi, n - 1), Rate(rateBp)) - emi as real
  }

  function Grown(x: real, r: real): real {
    x * (1.0 + r)
  }

  function Power(x: real, k: nat): real {
    if k == 0 then 1.0 else x * Power(x, k - 1)
  }

  /** 1 + (1 + r) + ... + (1 + r)^(n - 1) */
  function Growth(rateBp: nat, n: nat): real {
    if n == 0 then 0.0 else Growth(rateBp, n - 1) + Power(1.0 + Rate(rateBp), n - 1)
  }

  function AbsReal(x: real): real {
    if x < 0.0 then -x else x
  }

  /** One month's interest is within 50 paise of the exact interest. */
  lemma InterestIsNear(bal: int, rateBp: nat, interest: int, r: real)
    requires bal >= 0 && interest == MonthInterest(bal, rateBp) && r == Rate(rateBp)
    ensures r >= 0.0 && AbsReal(interest as real - bal as real * r) <= 50.0
  {
    var x, h := bal * rateBp, HalfUp(bal * rateBp, RUPEE_MONTH);
    HalfUpIsNearest(x, RUPEE_MONTH, h);
    assert 2 * x - 12000000 < 24000000 * h <= 2 * x + 12000000;
    assert interest == h * 100;
    var xr, hr := x as real, h as real;
    assert 2.0 * xr - 12000000.0 <= 24000000.0 * hr <= 2.0 * xr + 12000000.0;
    assert xr == bal as real * rateBp as real;
    RateOf(bal, rateBp);
    assert interest as real == hr * 100.0;
  }

  lemma RateOf(bal: nat, rateBp: nat)
    ensures bal as real * Rate(rateBp) == (bal as real * rateBp as real) / 120000.0
  {
    var b, r := bal as real, rateBp as real;
    assert b * (r / 120000.0) == (b * r) / 120000.0;
  }

  /** Horner's form of the growth sum: one more month multiplies it and adds one. */
  lemma {:induction false} GrowthStep(rateBp: nat, n: nat)
    ensures Growth(rateBp, n + 1) == Grown(Growth(rateBp, n), Rate(rateBp)) + 1.0
  {
    var q := 1.0 + Rate(rateBp);
    if n > 0 {
      GrowthStep(rateBp, n - 1);
      assert Growth(rateBp, n + 1) == Growth(rateBp, n) + q * Power(q, n - 1);
      assert q * Growth(rateBp, n) == q * Growth(rateBp, n - 1) + q * Power(q, n - 1);
    } else {
      assert Growth(rateBp, 1) == 1.0;
    }
  }

  lemma ScaledGap(e: real, q: real, bound: real)
    requires AbsReal(e) <= bound && q >= 0.0
    ensures AbsReal(e * q) <= bound * q
  {
    if e < 0.0 {
      assert (-e) * q <= bound * q;
    } else {
      assert e * q <= bound * q;
    }
  }

  /** After n rounded instalments the balance is within 50 paise times the growth sum of the unrounded balance. */
  lemma {:induction false} RoundingStaysNear(principal: nat, rateBp: nat, emi: int, n: nat)
    requires After(principal, rateBp, emi, n).Owing?
    ensures AbsReal(After(principal, rateBp, emi, n).bal as real - Exact(principal, rateBp, emi, n))
         <= 50.0 * Growth(rateBp, n)
  {
    if n > 0 {
      RunsBefore(principal, rateBp, emi, n - 1, n);
      RoundingStaysNear(principal, rateBp, emi, n - 1);
      OneInstalment(principal, rateBp, emi, n);
    }
  }

  lemma OneInstalment(principal: nat, rateBp: nat, emi: int, n: nat)
    requires n > 0 && After(principal, rateBp, emi, n).Owing? && After(principal, rateBp, emi, n - 1).Owing?
    requires AbsReal(After(principal, rateBp, emi, n - 1).bal as real - Exact(principal, rateBp, emi, n - 1))
         <= 50.0 * Growth(rateBp, n - 1)
    ensures AbsReal(After(principal, rateBp, emi, n).bal as real - Exact(principal, rateBp, emi, n))
         <= 50.0 * Growth(rateBp, n)
  {
    var bal, exact := After(principal, rateBp, emi, n - 1).bal, Exact(principal, rateBp, emi, n - 1);
    var interest: int, r := MonthInterest(bal, rateBp), Rate(rateBp);
    InterestIsNear(bal, rateBp, interest, r);
    GrowthStep(rateBp, n - 1);
    OneMonth(bal, exact, interest, emi, r, Growth(rateBp, n - 1), Exact(principal, rateBp, emi, n), Growth(rateBp, n));
  }

  /** One month of each: the gap grows by the rate and by one rounding. */
  lemma OneMonth(bal: int, exact: real, interest: int, emi: int, r: real, g: real, exactNext: real, gNext: real)
    requires AbsReal(bal as real - exact) <= 50.0 * g && AbsReal(interest as real - bal as real * r) <= 50.0 && r >= 0.0
    requires exactNext == Grown(exact, r) - emi as real && gNext == Grown(g, r) + 1.0
    ensures AbsReal((bal - (emi - interest)) as real - exactNext) <= 50.0 * gNext
  {
    var b, i, m, q := bal as real, interest as real, emi as real, 1.0 + r;
    var e, bound := b - exact, 50.0 * g;
    ScaledGap(e, q, bound);
    var gap, most := e * q, bound * q;
    assert gap == b + b * r - exact * q;
    assert most == 50.0 * (q * g);
    assert (bal - (emi - interest)) as real == b - (m - i);
    assert (b - (m - i)) - (exact * q - m) == gap + (i - b * r);
    assert 50.0 * (q * g + 1.0) == most + 50.0;
    Triangle(gap, i - b * r, most);
  }

  lemma Triangle(x: real, y: real, most: real)
    requires AbsReal(x) <= most && AbsReal(y) <= 50.0
    ensures AbsReal(x + y) <= most + 50.0
  {
  }
}
