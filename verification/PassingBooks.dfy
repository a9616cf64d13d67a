/** Books that pass every check on vouchers and balances: one without entries, and one more checked voucher at a
    time. */
module PassingBooks {
  import opened Totals
  import opened Lines
  import opened Ledger
  import opened BookPosting
  import opened VoucherRules
  import opened CloseExact

  // ------------------------------------------------------------------ one more voucher's rows

  lemma {:induction false} OneMorePosting(k: nat, v: Voucher, j: nat, ps: seq<Posting>)
    requires 0 < j <= |v.lines|
    ensures ps + LinePostings(k, v, j)
         == ps + LinePostings(k, v, j - 1) + [Posting(v.date, k, v.lines[j - 1].acct, v.lines[j - 1].amt)]
  {
    assert LinePostings(k, v, j)
         == LinePostings(k, v, j - 1) + [Posting(v.date, k, v.lines[j - 1].acct, v.lines[j - 1].amt)];
  }

  lemma {:induction false} RowsOfNext(opening: int, ps: seq<Posting>, p: Posting, i: int)
    ensures MovedAll(ps + [p], i) == MovedAll(ps, i) + (if p.acct == i then p.amt else 0)
    ensures RowsOf(opening, ps + [p], i) ==
      if p.acct == i then RowsOf(opening, ps, i)
        + [Row(p.date, p.entry, Max0(p.amt), Max0(-p.amt), opening + MovedAll(ps, i) + p.amt)]
      else RowsOf(opening, ps, i)
  {
    assert (ps + [p])[..|ps|] == ps;
  }

  /** A voucher leaves the ledgers it does not name alone. */
  lemma {:induction false} UntouchedRows(opening: int, ps: seq<Posting>, k: nat, v: Voucher, j: nat, i: int)
    requires j <= |v.lines| && forall m :: 0 <= m < j ==> v.lines[m].acct != i
    ensures RowsOf(opening, ps + LinePostings(k, v, j), i) == RowsOf(opening, ps, i)
    ensures MovedAll(ps + LinePostings(k, v, j), i) == MovedAll(ps, i)
  {
    if j == 0 {
      assert ps + LinePostings(k, v, 0) == ps;
    } else {
      UntouchedRows(opening, ps, k, v, j - 1, i);
      OneMorePosting(k, v, j, ps);
      RowsOfNext(opening, ps + LinePostings(k, v, j - 1),
                 Posting(v.date, k, v.lines[j - 1].acct, v.lines[j - 1].amt), i);
    }
  }

  /** It puts one row on each ledger it names. */
  lemma {:induction false} TouchedRows(opening: int, ps: seq<Posting>, k: nat, v: Voucher, j: nat, m: nat)
    requires m < j <= |v.lines|
    requires forall a, c :: 0 <= a < c < |v.lines| ==> v.lines[a].acct != v.lines[c].acct
    ensures var i, amt := v.lines[m].acct, v.lines[m].amt;
      && MovedAll(ps + LinePostings(k, v, j), i) == MovedAll(ps, i) + amt
      && RowsOf(opening, ps + LinePostings(k, v, j), i)
         == RowsOf(opening, ps, i) + [Row(v.date, k, Max0(amt), Max0(-amt), opening + MovedAll(ps, i) + amt)]
  {
    var i := v.lines[m].acct;
    var before, last := ps + LinePostings(k, v, j - 1), Posting(v.date, k, v.lines[j - 1].acct, v.lines[j - 1].amt);
    OneMorePosting(k, v, j, ps);
    RowsOfNext(opening, before, last, i);
    if m < j - 1 {
      TouchedRows(opening, ps, k, v, j - 1, m);
      assert last.acct != i;
    } else {
      UntouchedRows(opening, ps, k, v, j - 1, i);
    }
  }

  // ------------------------------------------------------------------ one more voucher in a book

  function WithVoucher(b: BookData, v: Voucher): BookData {
    BookData(b.chart, b.vouchers + [v])
  }

  lemma {:induction false} PostingsWith(b: BookData, v: Voucher)
    ensures Postings(WithVoucher(b, v).vouchers) == Postings(b.vouchers) + LinePostings(|b.vouchers|, v, |v.lines|)
  {
    assert (b.vouchers + [v])[..|b.vouchers|] == b.vouchers;
  }

  /** The account of a line ends at its balance and the line's amount; every other account where it stood. */
  lemma ClosingWith(b: BookData, v: Voucher, i: nat)
    requires DoubleEntry(b.chart, v.lines) && i < N(b)
    ensures forall m :: 0 <= m < |v.lines| && v.lines[m].acct == i ==>
      Closing(WithVoucher(b, v))(i) == Closing(b)(i) + v.lines[m].amt
    ensures (forall m :: 0 <= m < |v.lines| ==> v.lines[m].acct != i) ==> Closing(WithVoucher(b, v))(i) == Closing(b)(i)
  {
    PostingsWith(b, v);
    var opening, ps := b.chart[i].opening, Postings(b.vouchers);
    if m :| 0 <= m < |v.lines| && v.lines[m].acct == i {
      TouchedRows(opening, ps, |b.vouchers|, v, |v.lines|, m);
    } else {
      UntouchedRows(opening, ps, |b.vouchers|, v, |v.lines|, i);
    }
  }

  /** What a running balance may be: money in hand and what is held for or by others never below nil, a card never above
      it; fixed capital has no rows at all. */
  predicate RowAllowed(k: Kind, bal: int) {
    && (k in {Cash, Gollak, Bank, Wallet, Advance, Fixed, Invest, DepPaid, LoanTo, Retention} ==> bal >= 0)
    && (k == Card ==> bal <= 0)
    && k != PCapital
  }

  predicate AccountIsAllowed(a: Account, rows: seq<Row>) {
    && (a.kind in {Cash, Gollak, Bank, Wallet} ==> a.opening >= 0)
    && forall k :: 0 <= k < |rows| ==> RowAllowed(a.kind, rows[k].bal)
  }

  lemma AccountsByKind(a: Account, rows: seq<Row>)
    ensures RowsAreValid(a, rows) <==> AccountIsAllowed(a, rows)
  {
    if RowsAreValid(a, rows) {
      forall k | 0 <= k < |rows| ensures RowAllowed(a.kind, rows[k].bal) {
      }
    }
    if AccountIsAllowed(a, rows) {
      HeldByKind(a.kind);
      forall k | 0 <= k < |rows| ensures RowAllowed(a.kind, rows[k].bal) {
      }
      assert rows != [] ==> RowAllowed(a.kind, rows[0].bal);
    }
  }

  lemma HeldByKind(k: Kind)
    ensures IsHeldMoney(k) <==> k in {Cash, Gollak, Bank, Wallet}
    ensures IsHeldMoney(k) || IsHeldElse(k)
       <==> k in {Cash, Gollak, Bank, Wallet, Advance, Fixed, Invest, DepPaid, LoanTo, Retention}
  {
  }

  predicate VouchersAreAllowed(b: BookData) {
    forall k :: 0 <= k < |b.vouchers| ==> IsAllowed(b.chart, b.vouchers[k]) && 1 <= b.vouchers[k].date <= 365
  }

  predicate DatesAscend(vs: seq<Voucher>) {
    forall k :: 0 < k < |vs| ==> vs[k - 1].date <= vs[k].date
  }

  /** Openings and closing balances net to nil, every ledger is allowed, and there is a cash account. */
  predicate BalancesAreAllowed(b: BookData) {
    && SumTo(Opening(b), N(b)) == 0 && SumTo(Closing(b), N(b)) == 0
    && (forall i :: 0 <= i < N(b) ==> AccountIsAllowed(b.chart[i], Rows(b, i)))
    && (exists i :: 0 <= i < N(b) && b.chart[i].kind == Cash)
  }

  lemma {:induction false} NeighboursInOrder(vs: seq<Voucher>)
    ensures ByDate(vs) <==> DatesAscend(vs)
  {
    if |vs| > 1 && DatesAscend(vs) {
      var pre := vs[..|vs| - 1];
      forall k | 0 < k < |pre| ensures pre[k - 1].date <= pre[k].date {
        assert vs[k - 1].date <= vs[k].date;
      }
      NeighboursInOrder(pre);
      assert vs[|vs| - 2].date <= vs[|vs| - 1].date;
      assert forall j :: 0 <= j < |pre| ==> vs[j] == pre[j];
    }
  }

  lemma BalancesByKind(b: BookData)
    ensures ValidBalances(b) <==> BalancesAreAllowed(b)
  {
    SidesDiffer(Closing(b), N(b));
    AccountChecksByKind(b);
  }

  /** Everything `finalize` asks of a sorted book, by kinds, sides and dates: 01 Apr is day 1, 31 Mar day 365. */
  lemma FinalisesByKind(b: BookData)
    ensures ValidBook(b) <==> VouchersAreAllowed(b) && DatesAscend(b.vouchers) && BalancesAreAllowed(b)
  {
    ValidBookIs(b);
    NeighboursInOrder(b.vouchers);
    VoucherChecksByKind(b);
    BalancesByKind(b);
  }

  lemma VoucherChecksByKind(b: BookData)
    ensures ValidVouchers(b.chart, b.vouchers) && InYear(b.vouchers) <==> VouchersAreAllowed(b)
  {
    forall k | 0 <= k < |b.vouchers|
      ensures ValidVoucher(b.chart, b.vouchers[k]) <==> IsAllowed(b.chart, b.vouchers[k])
    {
      VouchersByKind(b.chart, b.vouchers[k]);
    }
  }

  lemma AccountChecksByKind(b: BookData)
    ensures (forall i :: 0 <= i < N(b) ==> ValidAccount(b, i)) <==>
      forall i :: 0 <= i < N(b) ==> AccountIsAllowed(b.chart[i], Rows(b, i))
  {
    forall i | 0 <= i < N(b) ensures ValidAccount(b, i) <==> AccountIsAllowed(b.chart[i], Rows(b, i)) {
      AccountsByKind(b.chart[i], Rows(b, i));
    }
  }

  /** The line's account may stand where the line brings it. */
  predicate LineFits(b: BookData, l: Line) {
    l.acct < N(b) && RowAllowed(b.chart[l.acct].kind, Closing(b)(l.acct) + l.amt)
  }

  predicate Fits(b: BookData, v: Voucher) {
    forall m :: 0 <= m < |v.lines| ==> LineFits(b, v.lines[m])
  }

  lemma UntouchedLedger(b: BookData, v: Voucher, i: nat)
    requires i < N(b) && forall m :: 0 <= m < |v.lines| ==> v.lines[m].acct != i
    ensures Rows(WithVoucher(b, v), i) == Rows(b, i)
  {
    PostingsWith(b, v);
    UntouchedRows(b.chart[i].opening, Postings(b.vouchers), |b.vouchers|, v, |v.lines|, i);
  }

  lemma SameLedgerPasses(b: BookData, next: BookData, i: nat)
    requires i < N(b) && next.chart == b.chart && Rows(next, i) == Rows(b, i) && ValidAccount(b, i)
    ensures ValidAccount(next, i)
  {
  }

  lemma TouchedAccountPasses(b: BookData, v: Voucher, m: nat)
    requires DoubleEntry(b.chart, v.lines) && m < |v.lines|
    requires LineFits(b, v.lines[m]) && ValidAccount(b, v.lines[m].acct)
    ensures ValidAccount(WithVoucher(b, v), v.lines[m].acct)
  {
    var i := v.lines[m].acct;
    PostingsWith(b, v);
    TouchedRows(b.chart[i].opening, Postings(b.vouchers), |b.vouchers|, v, |v.lines|, m);
    OneRowMore(b, WithVoucher(b, v), i, Rows(b, i), Rows(WithVoucher(b, v), i));
  }

  lemma OneRowMore(b: BookData, next: BookData, i: nat, pre: seq<Row>, rows: seq<Row>)
    requires i < N(b) && next.chart == b.chart && pre == Rows(b, i) && rows == Rows(next, i)
    requires |rows| == |pre| + 1 && rows[..|pre|] == pre && RowAllowed(b.chart[i].kind, rows[|pre|].bal)
    requires ValidAccount(b, i)
    ensures ValidAccount(next, i)
  {
    assert forall k :: 0 <= k < |pre| ==> rows[k] == rows[..|pre|][k];
  }

  lemma AccountsKeepPassing(b: BookData, v: Voucher)
    requires DoubleEntry(b.chart, v.lines) && Fits(b, v)
    requires forall i :: 0 <= i < N(b) ==> ValidAccount(b, i)
    ensures forall i :: 0 <= i < N(b) ==> ValidAccount(WithVoucher(b, v), i)
  {
    forall i | 0 <= i < N(b) ensures ValidAccount(WithVoucher(b, v), i) {
      if m :| 0 <= m < |v.lines| && v.lines[m].acct == i {
        TouchedAccountPasses(b, v, m);
      } else {
        UntouchedLedger(b, v, i);
        SameLedgerPasses(b, WithVoucher(b, v), i);
      }
    }
  }

  lemma BalancesPass(b: BookData, cash: nat)
    requires Balanced(b) && cash < N(b) && b.chart[cash].kind.Cash?
    requires forall i :: 0 <= i < N(b) ==> ValidAccount(b, i)
    ensures ValidBalances(b)
  {
    ClosingColumnsAgree(b);
  }

  lemma VouchersKeepOrder(vs: seq<Voucher>, v: Voucher)
    requires ByDate(vs) && (vs != [] ==> vs[|vs| - 1].date <= v.date)
    ensures ByDate(vs + [v])
  {
  }

  lemma VouchersStayValid(b: BookData, v: Voucher)
    requires ValidVouchers(b.chart, b.vouchers) && InYear(b.vouchers) && OpeningsBalance(b)
    requires ValidVoucher(b.chart, v) && FY_START <= v.date <= FY_END
    ensures ValidVouchers(b.chart, WithVoucher(b, v).vouchers) && Balanced(WithVoucher(b, v))
  {
    ValidIsDoubleEntry(WithVoucher(b, v));
    SumToEq(Opening(WithVoucher(b, v)), Opening(b), N(b));
  }

  /** A checked voucher, dated no earlier than the last, keeps a passing book passing when the accounts it names may
      stand where it brings them. */
  lemma VoucherKeepsPassing(b: BookData, v: Voucher, cash: nat)
    requires ValidBook(b) && cash < N(b) && b.chart[cash].kind.Cash?
    requires ValidVoucher(b.chart, v) && FY_START <= v.date <= FY_END && Fits(b, v)
    requires b.vouchers != [] ==> b.vouchers[|b.vouchers| - 1].date <= v.date
    ensures ValidBook(WithVoucher(b, v))
  {
    ValidBookIs(b);
    ValidBookIs(WithVoucher(b, v));
    VouchersStayValid(b, v);
    VouchersKeepOrder(b.vouchers, v);
    AccountsKeepPassing(b, v);
    BalancesPass(WithVoucher(b, v), cash);
  }

  /** A book without entries passes when its openings balance and what it holds opens above nil. */
  lemma EmptyBookPasses(b: BookData, cash: nat)
    requires b.vouchers == [] && OpeningsBalance(b) && cash < N(b) && b.chart[cash].kind.Cash?
    requires forall i :: 0 <= i < N(b) && IsHeldMoney(b.chart[i].kind) ==> b.chart[i].opening >= 0
    ensures ValidBook(b)
  {
    ValidBookIs(b);
    BalancesPass(b, cash);
  }
}
