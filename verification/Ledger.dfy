/** The chart, the vouchers and the ledgers of one reference book, and what every posted book keeps:
    the trial balance at every date, the running balance of every ledger, movements that compose, and
    ledger columns that agree. */
module Ledger {
  import opened Totals
  import opened Lines

  datatype Kind =
    | Cash | Gollak | Bank | Wallet | Card | KccLoan
    | Party | Link | Stake | Advance | LoanTo | Retention | Fixed | DepPaid | Invest
    | Loan | Deposit | Fund
    | Capital | Drawings | ShareOut | PartnerAc | PCapital | PCurrent
    | Income | Expense

  predicate IsMoney(k: Kind) {
    k.Cash? || k.Gollak? || k.Bank? || k.Wallet? || k.Card? || k.KccLoan?
  }

  predicate IsEquity(k: Kind) {
    k.Capital? || k.Drawings? || k.ShareOut? || k.PartnerAc? || k.PCapital? || k.PCurrent?
  }

  predicate IsHave(k: Kind) {
    IsMoney(k) || k.Advance? || k.Fixed? || k.Invest? || k.Stake? || k.DepPaid? || k.LoanTo? || k.Retention?
  }

  /** A balance-sheet account: it carries a balance into the next year. */
  predicate IsBs(k: Kind) {
    !k.Income? && !k.Expense?
  }

  /** `owner` marks the account in the Owner group: the owner's account in a book owned by another book. */
  datatype Account = Account(kind: Kind, opening: int, owner: bool)

  /** The fourteen journal words of the source are posted and checked alike. */
  datatype VType = Receipt | Payment | Contra | PaymentFromFund | Journal

  datatype Voucher = Voucher(date: int, vtype: VType, lines: seq<Line>)

  /** Dates are day numbers, 01 Apr 2025 = 1. */
  const FY_START := 1
  const FY_END := 365

  // ------------------------------------------------------------------ validation of vouchers

  function KindOf(chart: seq<Account>, l: Line): Kind
    requires l.acct < |chart|
  {
    chart[l.acct].kind
  }

  predicate IsFund(k: Kind) { k.Fund? }

  predicate IsIncome(k: Kind) { k.Income? }

  predicate IsExpense(k: Kind) { k.Expense? }

  predicate OnSide(chart: seq<Account>, l: Line, p: Kind -> bool, dr: bool)
    requires l.acct < |chart|
  {
    p(KindOf(chart, l)) && if dr then l.amt > 0 else l.amt < 0
  }

  /** The amounts of the lines on one kind of account, on one side. */
  function SideSum(chart: seq<Account>, ls: seq<Line>, p: Kind -> bool, dr: bool): int
    requires InChart(ls, |chart|)
  {
    if ls == [] then 0
    else
      SideSum(chart, ls[..|ls| - 1], p, dr)
      + (if OnSide(chart, ls[|ls| - 1], p, dr) then Abs(ls[|ls| - 1].amt) else 0)
  }

  function SideCount(chart: seq<Account>, ls: seq<Line>, p: Kind -> bool, dr: bool): nat
    requires InChart(ls, |chart|)
  {
    if ls == [] then 0
    else SideCount(chart, ls[..|ls| - 1], p, dr) + (if OnSide(chart, ls[|ls| - 1], p, dr) then 1 else 0)
  }

  predicate HasMoney(chart: seq<Account>, ls: seq<Line>)
    requires InChart(ls, |chart|)
  {
    exists k :: 0 <= k < |ls| && IsMoney(KindOf(chart, ls[k]))
  }

  predicate DoubleEntry(chart: seq<Account>, ls: seq<Line>) {
    && |ls| >= 2
    && Net(ls) == 0
    && (forall j, k :: 0 <= j < k < |ls| ==> ls[j].acct != ls[k].acct)
    && InChart(ls, |chart|)
    && (forall k :: 0 <= k < |ls| ==> ls[k].amt != 0)
  }

  /** Spending from a fund: the cost against the money paid, and the same amount out of the fund. */
  predicate FundShape(chart: seq<Account>, ls: seq<Line>)
    requires InChart(ls, |chart|)
  {
    && SideCount(chart, ls, IsFund, true) == 1
    && SideCount(chart, ls, IsIncome, false) == 1
    && HasMoney(chart, ls) && |ls| == 4
    && (forall j :: 0 <= j < |ls| && ls[j].amt > 0 ==>
          var k := KindOf(chart, ls[j]); k.Fund? || k.Expense? || k.Fixed?)
    && (forall j :: 0 <= j < |ls| && ls[j].amt < 0 ==>
          var k := KindOf(chart, ls[j]); IsMoney(k) || k.Income?)
    && SideSum(chart, ls, IsFund, true) == SideSum(chart, ls, IsIncome, false) == SideSum(chart, ls, IsMoney, false)
  }

  predicate GollakRule(chart: seq<Account>, v: Voucher)
    requires InChart(v.lines, |chart|)
  {
    forall j :: 0 <= j < |v.lines| && KindOf(chart, v.lines[j]).Gollak? ==>
      if v.lines[j].amt < 0 then
        v.vtype.Contra? && forall m :: 0 <= m < |v.lines| && v.lines[m].amt > 0 ==>
          KindOf(chart, v.lines[m]).Cash? || KindOf(chart, v.lines[m]).Bank?
      else
        v.vtype.Receipt? && forall m :: 0 <= m < |v.lines| && v.lines[m].amt < 0 ==> KindOf(chart, v.lines[m]).Income?
  }

  predicate ValidVoucher(chart: seq<Account>, v: Voucher) {
    var ls := v.lines;
    && DoubleEntry(chart, ls)
    && (match v.vtype
        case Contra =>
          && |ls| == 2 && HasMoney(chart, ls)
          && forall j :: 0 <= j < |ls| ==> IsMoney(KindOf(chart, ls[j])) || KindOf(chart, ls[j]).Invest?
        case PaymentFromFund => FundShape(chart, ls)
        case Receipt =>
          && HasMoney(chart, ls)
          && forall j :: 0 <= j < |ls| && ls[j].amt > 0 ==> IsMoney(KindOf(chart, ls[j]))
        case Payment =>
          && HasMoney(chart, ls)
          && (forall j :: 0 <= j < |ls| && ls[j].amt < 0 ==>
                var k := KindOf(chart, ls[j]); IsMoney(k) || k.Advance? || k.Loan?)
          && (forall j :: 0 <= j < |ls| && ls[j].amt > 0 ==> !IsMoney(KindOf(chart, ls[j])))
        case Journal => !HasMoney(chart, ls))
    && GollakRule(chart, v)
  }

  predicate ValidVouchers(chart: seq<Account>, vs: seq<Voucher>) {
    forall k :: 0 <= k < |vs| ==> ValidVoucher(chart, vs[k])
  }

  // ------------------------------------------------------------------ posting

  datatype Posting = Posting(date: int, entry: nat, acct: nat, amt: int)

  /** One ledger row; `bal` is the running balance posting leaves behind. */
  datatype Row = Row(date: int, entry: nat, dr: nat, cr: nat, bal: int)

  function LinePostings(k: nat, v: Voucher, j: nat): seq<Posting>
    requires j <= |v.lines|
  {
    seq(j, m requires 0 <= m < j => Posting(v.date, k, v.lines[m].acct, v.lines[m].amt))
  }

  /** Every line of every voucher, in posting order. */
  function Postings(vs: seq<Voucher>): seq<Posting> {
    if vs == [] then []
    else
      var k := |vs| - 1;
      Postings(vs[..k]) + LinePostings(k, vs[k], |vs[k].lines|)
  }

  /** What the postings up to a date do to one account. */
  function Moved(ps: seq<Posting>, i: int, date: int): int {
    if ps == [] then 0
    else
      var p := ps[|ps| - 1];
      Moved(ps[..|ps| - 1], i, date) + (if p.acct == i && p.date <= date then p.amt else 0)
  }

  function MovedAll(ps: seq<Posting>, i: int): int {
    if ps == [] then 0
    else
      var p := ps[|ps| - 1];
      MovedAll(ps[..|ps| - 1], i) + (if p.acct == i then p.amt else 0)
  }

  /** The ledger of one account: its postings in order, each with the balance after it. */
  function RowsOf(opening: int, ps: seq<Posting>, i: int): seq<Row> {
    if ps == [] then []
    else
      var p := ps[|ps| - 1];
      if p.acct == i then
        RowsOf(opening, ps[..|ps| - 1], i)
          + [Row(p.date, p.entry, Max0(p.amt), Max0(-p.amt), opening + MovedAll(ps, i))]
      else RowsOf(opening, ps[..|ps| - 1], i)
  }

  function DrIn(rows: seq<Row>, start: int, end: int): nat {
    if rows == [] then 0
    else
      var r := rows[|rows| - 1];
      DrIn(rows[..|rows| - 1], start, end) + (if start <= r.date <= end then r.dr else 0)
  }

  function CrIn(rows: seq<Row>, start: int, end: int): nat {
    if rows == [] then 0
    else
      var r := rows[|rows| - 1];
      CrIn(rows[..|rows| - 1], start, end) + (if start <= r.date <= end then r.cr else 0)
  }

  /** The net of a ledger's rows up to a date, as `balance_at` sums it. */
  function RowNet(rows: seq<Row>, date: int): int {
    if rows == [] then 0
    else
      var r := rows[|rows| - 1];
      RowNet(rows[..|rows| - 1], date) + (if r.date <= date then r.dr - r.cr else 0)
  }

  function BalanceAt(opening: int, rows: seq<Row>, date: int): int {
    opening + RowNet(rows, date)
  }

  // ------------------------------------------------------------------ a whole book, as values

  datatype BookData = BookData(chart: seq<Account>, vouchers: seq<Voucher>)

  function N(b: BookData): nat { |b.chart| }

  function Rows(b: BookData, i: int): seq<Row>
    requires 0 <= i < N(b)
  {
    RowsOf(b.chart[i].opening, Postings(b.vouchers), i)
  }

  function BalAt(b: BookData, date: int): int -> int {
    i => if 0 <= i < N(b) then BalanceAt(b.chart[i].opening, Rows(b, i), date) else 0
  }

  /** `closing`: the balance the last posting leaves. */
  function Closing(b: BookData): int -> int {
    i => if 0 <= i < N(b) then b.chart[i].opening + MovedAll(Postings(b.vouchers), i) else 0
  }

  function Opening(b: BookData): int -> int {
    i => if 0 <= i < N(b) then b.chart[i].opening else 0
  }

  function DrMove(b: BookData, start: int, end: int): int -> int {
    i => if 0 <= i < N(b) then DrIn(Rows(b, i), start, end) else 0
  }

  function CrMove(b: BookData, start: int, end: int): int -> int {
    i => if 0 <= i < N(b) then CrIn(Rows(b, i), start, end) else 0
  }

  predicate InYear(vs: seq<Voucher>) {
    forall k :: 0 <= k < |vs| ==> FY_START <= vs[k].date <= FY_END
  }

  /** The one thing about each voucher that the trial balance rests on. */
  predicate DoubleEntries(b: BookData) {
    forall k :: 0 <= k < |b.vouchers| ==> InChart(b.vouchers[k].lines, N(b)) && Net(b.vouchers[k].lines) == 0
  }

  predicate OpeningsBalance(b: BookData) {
    SumTo(Opening(b), N(b)) == 0
  }

  lemma ValidIsDoubleEntry(b: BookData)
    requires ValidVouchers(b.chart, b.vouchers)
    ensures DoubleEntries(b)
  {
  }

  // ------------------------------------------------------------------ rows against postings

  lemma {:induction false} RowNetIsMoved(opening: int, ps: seq<Posting>, i: int, date: int)
    ensures RowNet(RowsOf(opening, ps, i), date) == Moved(ps, i, date)
  {
    if ps != [] {
      RowNetIsMoved(opening, ps[..|ps| - 1], i, date);
      var before, now := RowsOf(opening, ps[..|ps| - 1], i), RowsOf(opening, ps, i);
      if now != before {
        assert now[..|now| - 1] == before;
      }
    }
  }

  /** What all vouchers dated up to `date` net to, over every account. */
  function NetUpto(vs: seq<Voucher>, date: int): int {
    if vs == [] then 0
    else
      var v := vs[|vs| - 1];
      NetUpto(vs[..|vs| - 1], date) + (if v.date <= date then Net(v.lines) else 0)
  }

  function DeltaUpto(vs: seq<Voucher>, date: int): int -> int {
    i => DeltaUptoOf(vs, i, date)
  }

  function DeltaUptoOf(vs: seq<Voucher>, i: int, date: int): int {
    if vs == [] then 0
    else
      var v := vs[|vs| - 1];
      DeltaUptoOf(vs[..|vs| - 1], i, date) + (if v.date <= date then Delta(v.lines, i) else 0)
  }

  lemma {:induction false} MovedConcat(a: seq<Posting>, c: seq<Posting>, i: int, date: int)
    ensures Moved(a + c, i, date) == Moved(a, i, date) + Moved(c, i, date)
    ensures MovedAll(a + c, i) == MovedAll(a, i) + MovedAll(c, i)
  {
    if c == [] {
      assert a + c == a;
    } else {
      assert (a + c)[..|a + c| - 1] == a + c[..|c| - 1];
      MovedConcat(a, c[..|c| - 1], i, date);
    }
  }

  lemma {:induction false} LinePostingsMove(k: nat, v: Voucher, j: nat, i: int, date: int)
    requires j <= |v.lines|
    ensures MovedAll(LinePostings(k, v, j), i) == Delta(v.lines[..j], i)
    ensures Moved(LinePostings(k, v, j), i, date) == if v.date <= date then Delta(v.lines[..j], i) else 0
  {
    if j > 0 {
      LinePostingsMove(k, v, j - 1, i, date);
      assert LinePostings(k, v, j)[..j - 1] == LinePostings(k, v, j - 1);
      assert v.lines[..j][..j - 1] == v.lines[..j - 1];
    }
  }

  /** Postings rebuilt account by account are the vouchers' lines, date by date. */
  lemma {:induction false} PostingsMove(vs: seq<Voucher>, i: int, date: int)
    ensures Moved(Postings(vs), i, date) == DeltaUptoOf(vs, i, date)
  {
    if vs != [] {
      var k := |vs| - 1;
      PostingsMove(vs[..k], i, date);
      LinePostingsMove(k, vs[k], |vs[k].lines|, i, date);
      assert vs[k].lines[..|vs[k].lines|] == vs[k].lines;
      MovedConcat(Postings(vs[..k]), LinePostings(k, vs[k], |vs[k].lines|), i, date);
    }
  }

  lemma {:induction false} MovedAllIsLate(ps: seq<Posting>, i: int, date: int)
    requires forall k :: 0 <= k < |ps| ==> ps[k].date <= date
    ensures MovedAll(ps, i) == Moved(ps, i, date)
  {
    if ps != [] {
      MovedAllIsLate(ps[..|ps| - 1], i, date);
    }
  }

  lemma {:induction false} PostingsDated(vs: seq<Voucher>, lo: int, hi: int)
    requires forall k :: 0 <= k < |vs| ==> lo <= vs[k].date <= hi
    ensures forall k :: 0 <= k < |Postings(vs)| ==> lo <= Postings(vs)[k].date <= hi
  {
    if vs != [] {
      PostingsDated(vs[..|vs| - 1], lo, hi);
    }
  }

  lemma {:induction false} RowsDated(opening: int, ps: seq<Posting>, i: int, lo: int, hi: int)
    requires forall k :: 0 <= k < |ps| ==> lo <= ps[k].date <= hi
    ensures forall k :: 0 <= k < |RowsOf(opening, ps, i)| ==> lo <= RowsOf(opening, ps, i)[k].date <= hi
  {
    if ps != [] {
      RowsDated(opening, ps[..|ps| - 1], i, lo, hi);
    }
  }

  /** The closing balance is `balance_at` on the last day of the year. */
  lemma ClosingIsBalanceAtYearEnd(b: BookData, i: int)
    requires 0 <= i < N(b) && InYear(b.vouchers)
    ensures BalAt(b, FY_END)(i) == Closing(b)(i)
    ensures forall k :: 0 <= k < |Rows(b, i)| ==> FY_START <= Rows(b, i)[k].date <= FY_END
  {
    var ps := Postings(b.vouchers);
    PostingsDated(b.vouchers, FY_START, FY_END);
    RowNetIsMoved(b.chart[i].opening, ps, i, FY_END);
    MovedAllIsLate(ps, i, FY_END);
    RowsDated(b.chart[i].opening, ps, i, FY_START, FY_END);
  }

  // ------------------------------------------------------------------ the trial balance

  lemma {:induction false} DeltasUptoAddUp(vs: seq<Voucher>, n: nat, date: int)
    requires forall k :: 0 <= k < |vs| ==> InChart(vs[k].lines, n)
    ensures SumTo(DeltaUpto(vs, date), n) == NetUpto(vs, date)
  {
    if vs == [] {
      SumToZero(DeltaUpto(vs, date), n);
    } else {
      var pre, v := vs[..|vs| - 1], vs[|vs| - 1];
      DeltasUptoAddUp(pre, n, date);
      DeltasAddUp(v.lines, n);
      if v.date <= date {
        SumToAdd(DeltaUpto(pre, date), DeltaOf(v.lines), DeltaUpto(vs, date), n);
      } else {
        SumToEq(DeltaUpto(pre, date), DeltaUpto(vs, date), n);
      }
    }
  }

  lemma {:induction false} NetUptoIsNil(vs: seq<Voucher>, date: int)
    requires forall k :: 0 <= k < |vs| ==> Net(vs[k].lines) == 0
    ensures NetUpto(vs, date) == 0
  {
    if vs != [] {
      NetUptoIsNil(vs[..|vs| - 1], date);
    }
  }

  lemma {:induction false} BalAtIsDelta(b: BookData, i: int, date: int)
    requires 0 <= i < N(b)
    ensures BalAt(b, date)(i) == Opening(b)(i) + DeltaUptoOf(b.vouchers, i, date)
  {
    RowNetIsMoved(b.chart[i].opening, Postings(b.vouchers), i, date);
    PostingsMove(b.vouchers, i, date);
  }

  /** On every date the balances rebuilt from the ledgers' rows add up to what the openings add up to:
      nil for a book whose openings balance. */
  lemma TrialBalanceAtEveryDate(b: BookData, date: int)
    requires DoubleEntries(b)
    ensures SumTo(BalAt(b, date), N(b)) == SumTo(Opening(b), N(b))
  {
    forall i | 0 <= i < N(b)
      ensures BalAt(b, date)(i) == Opening(b)(i) + DeltaUpto(b.vouchers, date)(i)
    {
      BalAtIsDelta(b, i, date);
    }
    SumToAdd(Opening(b), DeltaUpto(b.vouchers, date), BalAt(b, date), N(b));
    DeltasUptoAddUp(b.vouchers, N(b), date);
    NetUptoIsNil(b.vouchers, date);
  }

  function DrSide(f: int -> int): int -> int { i => Max0(f(i)) }

  function CrSide(f: int -> int): int -> int { i => Max0(-f(i)) }

  lemma {:induction false} SidesDiffer(f: int -> int, n: nat)
    ensures SumTo(DrSide(f), n) - SumTo(CrSide(f), n) == SumTo(f, n)
  {
    SumToAdd(f, CrSide(f), DrSide(f), n);
  }

  /** The printed trial balance: the Dr column and the Cr column agree. */
  lemma TrialBalanceColumns(b: BookData, date: int)
    requires DoubleEntries(b) && OpeningsBalance(b)
    ensures SumTo(DrSide(BalAt(b, date)), N(b)) == SumTo(CrSide(BalAt(b, date)), N(b))
  {
    TrialBalanceAtEveryDate(b, date);
    SidesDiffer(BalAt(b, date), N(b));
  }

  // ------------------------------------------------------------------ movements

  lemma {:induction false} MovementsJoin(rows: seq<Row>, start: int, mid: int, end: int)
    requires start <= mid + 1 && mid <= end
    ensures DrIn(rows, start, end) == DrIn(rows, start, mid) + DrIn(rows, mid + 1, end)
    ensures CrIn(rows, start, end) == CrIn(rows, start, mid) + CrIn(rows, mid + 1, end)
  {
    if rows != [] {
      MovementsJoin(rows[..|rows| - 1], start, mid, end);
    }
  }

  /** A balance, the movement of the days after it, and the balance at their end. */
  lemma {:induction false} BalancePlusMovement(opening: int, rows: seq<Row>, start: int, end: int)
    requires start <= end + 1
    ensures BalanceAt(opening, rows, end)
         == BalanceAt(opening, rows, start - 1) + DrIn(rows, start, end) - CrIn(rows, start, end)
  {
    if rows != [] {
      BalancePlusMovement(opening, rows[..|rows| - 1], start, end);
    }
  }

  /** The month table: the Dr side and the Cr side of any period's entries agree over the whole chart. */
  lemma PeriodColumnsAgree(b: BookData, start: int, end: int)
    requires DoubleEntries(b) && start <= end + 1
    ensures SumTo(DrMove(b, start, end), N(b)) == SumTo(CrMove(b, start, end), N(b))
  {
    forall i | 0 <= i < N(b)
      ensures BalAt(b, end)(i) + CrMove(b, start, end)(i) == BalAt(b, start - 1)(i) + DrMove(b, start, end)(i)
    {
      BalancePlusMovement(b.chart[i].opening, Rows(b, i), start, end);
    }
    var both := (i: int) => BalAt(b, end)(i) + CrMove(b, start, end)(i);
    SumToAdd(BalAt(b, end), CrMove(b, start, end), both, N(b));
    SumToAdd(BalAt(b, start - 1), DrMove(b, start, end), both, N(b));
    TrialBalanceAtEveryDate(b, end);
    TrialBalanceAtEveryDate(b, start - 1);
  }

  // ------------------------------------------------------------------ movements from the vouchers

  /** What the lines put on one side of an account. */
  function SideOf(ls: seq<Line>, i: int, dr: bool): nat {
    if ls == [] then 0
    else
      var l := ls[|ls| - 1];
      SideOf(ls[..|ls| - 1], i, dr) + (if l.acct == i then Max0(if dr then l.amt else -l.amt) else 0)
  }

  /** What the vouchers of a period put on it. */
  function SideIn(vs: seq<Voucher>, i: int, start: int, end: int, dr: bool): nat {
    if vs == [] then 0
    else
      var v := vs[|vs| - 1];
      SideIn(vs[..|vs| - 1], i, start, end, dr) + (if start <= v.date <= end then SideOf(v.lines, i, dr) else 0)
  }

  function PostedSide(ps: seq<Posting>, i: int, start: int, end: int, dr: bool): nat {
    if ps == [] then 0
    else
      var p := ps[|ps| - 1];
      PostedSide(ps[..|ps| - 1], i, start, end, dr)
      + (if p.acct == i && start <= p.date <= end then Max0(if dr then p.amt else -p.amt) else 0)
  }

  lemma {:induction false} RowsOnASide(opening: int, ps: seq<Posting>, i: int, start: int, end: int)
    ensures DrIn(RowsOf(opening, ps, i), start, end) == PostedSide(ps, i, start, end, true)
    ensures CrIn(RowsOf(opening, ps, i), start, end) == PostedSide(ps, i, start, end, false)
  {
    if ps != [] {
      RowsOnASide(opening, ps[..|ps| - 1], i, start, end);
      var before, now := RowsOf(opening, ps[..|ps| - 1], i), RowsOf(opening, ps, i);
      if now != before {
        assert now[..|now| - 1] == before;
      }
    }
  }

  lemma {:induction false} PostedSideConcat(a: seq<Posting>, c: seq<Posting>, i: int, start: int, end: int, dr: bool)
    ensures PostedSide(a + c, i, start, end, dr) == PostedSide(a, i, start, end, dr) + PostedSide(c, i, start, end, dr)
  {
    if c == [] {
      assert a + c == a;
    } else {
      assert (a + c)[..|a + c| - 1] == a + c[..|c| - 1];
      PostedSideConcat(a, c[..|c| - 1], i, start, end, dr);
    }
  }

  lemma {:induction false} LinesOnASide(k: nat, v: Voucher, j: nat, i: int, start: int, end: int, dr: bool)
    requires j <= |v.lines|
    ensures PostedSide(LinePostings(k, v, j), i, start, end, dr)
         == if start <= v.date <= end then SideOf(v.lines[..j], i, dr) else 0
  {
    if j > 0 {
      LinesOnASide(k, v, j - 1, i, start, end, dr);
      assert LinePostings(k, v, j)[..j - 1] == LinePostings(k, v, j - 1);
      assert v.lines[..j][..j - 1] == v.lines[..j - 1];
    }
  }

  lemma {:induction false} PostingsOnASide(vs: seq<Voucher>, i: int, start: int, end: int, dr: bool)
    ensures PostedSide(Postings(vs), i, start, end, dr) == SideIn(vs, i, start, end, dr)
  {
    if vs != [] {
      var k := |vs| - 1;
      PostingsOnASide(vs[..k], i, start, end, dr);
      LinesOnASide(k, vs[k], |vs[k].lines|, i, start, end, dr);
      assert vs[k].lines[..|vs[k].lines|] == vs[k].lines;
      PostedSideConcat(Postings(vs[..k]), LinePostings(k, vs[k], |vs[k].lines|), i, start, end, dr);
    }
  }

  /** The movement read from an account's ledger is what the period's vouchers put on its two sides. */
  lemma {:induction false} MovementIsVoucherLines(b: BookData, i: nat, start: int, end: int)
    requires i < N(b)
    ensures DrMove(b, start, end)(i) == SideIn(b.vouchers, i, start, end, true)
    ensures CrMove(b, start, end)(i) == SideIn(b.vouchers, i, start, end, false)
  {
    RowsOnASide(b.chart[i].opening, Postings(b.vouchers), i, start, end);
    PostingsOnASide(b.vouchers, i, start, end, true);
    PostingsOnASide(b.vouchers, i, start, end, false);
  }

  // ------------------------------------------------------------------ running balances

  predicate ByDate(vs: seq<Voucher>) {
    forall j, k :: 0 <= j <= k < |vs| ==> vs[j].date <= vs[k].date
  }

  predicate PostedByDate(ps: seq<Posting>) {
    forall j, k :: 0 <= j <= k < |ps| ==> ps[j].date <= ps[k].date
  }

  lemma {:induction false} PostingsByDate(vs: seq<Voucher>)
    requires ByDate(vs)
    ensures PostedByDate(Postings(vs))
  {
    if vs != [] {
      var k := |vs| - 1;
      PostingsByDate(vs[..k]);
      PostingsDated(vs[..k], vs[0].date, vs[k].date);
    }
  }

  /** Row `m` of a ledger is the last of its day. */
  predicate EndsItsDay(rows: seq<Row>, m: nat)
    requires m < |rows|
  {
    m + 1 == |rows| || rows[m].date < rows[m + 1].date
  }

  predicate RowsByDate(rows: seq<Row>) {
    forall j, k :: 0 <= j <= k < |rows| ==> rows[j].date <= rows[k].date
  }

  /** The rows of postings in date order are in date order. */
  lemma {:induction false} PostingsKeepOrder(opening: int, ps: seq<Posting>, i: int)
    requires PostedByDate(ps)
    ensures RowsByDate(RowsOf(opening, ps, i))
  {
    if ps != [] {
      PostingsKeepOrder(opening, ps[..|ps| - 1], i);
      RowsDated(opening, ps[..|ps| - 1], i, ps[0].date, ps[|ps| - 1].date);
    }
  }

  /** A later day's row changes neither which row ends an earlier day nor that day's balance. */
  lemma {:induction false} EarlierDay(opening: int, before: seq<Row>, row: Row, m: nat)
    requires m < |before| && RowsByDate(before + [row]) && EndsItsDay(before + [row], m)
    ensures EndsItsDay(before, m)
    ensures BalanceAt(opening, before + [row], before[m].date) == BalanceAt(opening, before, before[m].date)
  {
    var rows := before + [row];
    assert rows[..|rows| - 1] == before;
    assert rows[m].date < rows[m + 1].date <= rows[|before|].date;
  }

  /** After the last posting the running balance is the balance of its day. */
  lemma {:induction false} LastPosting(opening: int, ps: seq<Posting>, i: int)
    requires ps != [] && PostedByDate(ps)
    ensures opening + MovedAll(ps, i) == BalanceAt(opening, RowsOf(opening, ps, i), ps[|ps| - 1].date)
  {
    RowNetIsMoved(opening, ps, i, ps[|ps| - 1].date);
    MovedAllIsLate(ps, i, ps[|ps| - 1].date);
  }

  lemma {:induction false} RunningBalanceOfPostings(opening: int, ps: seq<Posting>, i: int, m: nat)
    requires PostedByDate(ps) && m < |RowsOf(opening, ps, i)| && EndsItsDay(RowsOf(opening, ps, i), m)
    ensures var rows := RowsOf(opening, ps, i); rows[m].bal == BalanceAt(opening, rows, rows[m].date)
  {
    var p, pre := ps[|ps| - 1], ps[..|ps| - 1];
    var before, rows := RowsOf(opening, pre, i), RowsOf(opening, ps, i);
    if p.acct != i {
      RunningBalanceOfPostings(opening, pre, i, m);
    } else if m == |before| {
      LastPosting(opening, ps, i);
    } else {
      PostingsKeepOrder(opening, ps, i);
      EarlierDay(opening, before, rows[|before|], m);
      RunningBalanceOfPostings(opening, pre, i, m);
    }
  }

  /** In a book whose vouchers are in date order every ledger is too, and the balance posting stores on the last row of
      a day is what `balance_at` answers for that day. */
  lemma {:induction false} RunningBalanceIsBalanceAt(b: BookData, i: nat)
    requires ByDate(b.vouchers) && i < N(b)
    ensures RowsByDate(Rows(b, i))
    ensures forall m :: 0 <= m < |Rows(b, i)| && EndsItsDay(Rows(b, i), m) ==>
      Rows(b, i)[m].bal == BalAt(b, Rows(b, i)[m].date)(i)
  {
    PostingsByDate(b.vouchers);
    PostingsKeepOrder(b.chart[i].opening, Postings(b.vouchers), i);
    forall m | 0 <= m < |Rows(b, i)| && EndsItsDay(Rows(b, i), m)
      ensures Rows(b, i)[m].bal == BalAt(b, Rows(b, i)[m].date)(i)
    {
      RunningBalanceOfPostings(b.chart[i].opening, Postings(b.vouchers), i, m);
    }
  }
}
