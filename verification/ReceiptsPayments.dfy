/** The Receipts & Payments account of a trust: what it leaves out, and exactly when its two sides are level. */
module ReceiptsPayments {
  import opened Totals
  import opened Lines
  import opened Ledger
  import opened Options
  import opened YearClose
  import opened CloseExact

  // ------------------------------------------------------------------ figures taken line by line

  /** The figure `g` of the lines on account `n`. */
  function OnAcct(v: Voucher, ls: seq<Line>, g: (Voucher, Line) -> int, n: int): int {
    if ls == [] then 0
    else
      var l := ls[|ls| - 1];
      OnAcct(v, ls[..|ls| - 1], g, n) + (if l.acct == n then g(v, l) else 0)
  }

  function OnAll(v: Voucher, ls: seq<Line>, g: (Voucher, Line) -> int): int {
    if ls == [] then 0 else OnAll(v, ls[..|ls| - 1], g) + g(v, ls[|ls| - 1])
  }

  function Tally(vs: seq<Voucher>, g: (Voucher, Line) -> int, n: int): int {
    if vs == [] then 0
    else
      var v := vs[|vs| - 1];
      Tally(vs[..|vs| - 1], g, n) + OnAcct(v, v.lines, g, n)
  }

  function TallyOf(vs: seq<Voucher>, g: (Voucher, Line) -> int): int -> int {
    n => Tally(vs, g, n)
  }

  function OnAcctOf(v: Voucher, ls: seq<Line>, g: (Voucher, Line) -> int): int -> int {
    n => OnAcct(v, ls, g, n)
  }

  function Whole(vs: seq<Voucher>, g: (Voucher, Line) -> int): int {
    if vs == [] then 0
    else
      var v := vs[|vs| - 1];
      Whole(vs[..|vs| - 1], g) + OnAll(v, v.lines, g)
  }

  lemma {:induction false} OnAcctAddsUp(v: Voucher, ls: seq<Line>, g: (Voucher, Line) -> int, n: nat)
    requires InChart(ls, n)
    ensures SumTo(OnAcctOf(v, ls, g), n) == OnAll(v, ls, g)
  {
    if ls == [] {
      SumToZero(OnAcctOf(v, ls, g), n);
    } else {
      var pre, l := ls[..|ls| - 1], ls[|ls| - 1];
      OnAcctAddsUp(v, pre, g, n);
      var point := (i: int) => if i == l.acct then g(v, l) else 0;
      SumToPoint(point, l.acct, g(v, l), n);
      SumToAdd(OnAcctOf(v, pre, g), point, OnAcctOf(v, ls, g), n);
    }
  }

  lemma {:induction false} TallyAddsUp(vs: seq<Voucher>, g: (Voucher, Line) -> int, n: nat)
    requires forall k :: 0 <= k < |vs| ==> InChart(vs[k].lines, n)
    ensures SumTo(TallyOf(vs, g), n) == Whole(vs, g)
  {
    if vs == [] {
      SumToZero(TallyOf(vs, g), n);
    } else {
      var pre, v := vs[..|vs| - 1], vs[|vs| - 1];
      TallyAddsUp(pre, g, n);
      OnAcctAddsUp(v, v.lines, g, n);
      SumToAdd(TallyOf(pre, g), OnAcctOf(v, v.lines, g), TallyOf(vs, g), n);
    }
  }

  // ------------------------------------------------------------------ what the account counts

  function KindIn(chart: seq<Account>, l: Line): Option<Kind> {
    if l.acct < |chart| then Some(chart[l.acct].kind) else None
  }

  predicate MoneyLine(chart: seq<Account>, l: Line) {
    KindIn(chart, l).Some? && IsMoney(KindIn(chart, l).value)
  }

  predicate CostLine(chart: seq<Account>, l: Line) {
    KindIn(chart, l).Some? && (KindIn(chart, l).value.Expense? || KindIn(chart, l).value.Fixed?)
  }

  /** A receipt: what a Receipt or Payment credits, money apart. */
  function ReceiptOf(chart: seq<Account>): (Voucher, Line) -> int {
    (v: Voucher, l: Line) =>
      if (v.vtype.Receipt? || v.vtype.Payment?) && !MoneyLine(chart, l) && l.amt < 0 then -l.amt else 0
  }

  /** A payment: what a Receipt or Payment debits, money apart; of spending from a fund, the cost. */
  function PaymentOf(chart: seq<Account>): (Voucher, Line) -> int {
    (v: Voucher, l: Line) =>
      if v.vtype.PaymentFromFund? then (if l.amt > 0 && CostLine(chart, l) then l.amt else 0)
      else if (v.vtype.Receipt? || v.vtype.Payment?) && !MoneyLine(chart, l) && l.amt > 0 then l.amt else 0
  }

  function MoneyOf(chart: seq<Account>): (Voucher, Line) -> int {
    (v: Voucher, l: Line) => if MoneyLine(chart, l) then l.amt else 0
  }

  /** What a transfer moves into a deposit (taken back, on the Cr side). */
  function DepositOf(chart: seq<Account>): (Voucher, Line) -> int {
    (v: Voucher, l: Line) => if v.vtype.Contra? && KindIn(chart, l) == Some(Invest) then l.amt else 0
  }

  function MovedIntoDeposits(b: BookData): int {
    Whole(b.vouchers, DepositOf(b.chart))
  }

  /** The assertion inside the report's loop. */
  predicate RpShape(b: BookData) {
    forall k, j :: 0 <= k < |b.vouchers| && 0 <= j < |b.vouchers[k].lines| ==>
      var v, l := b.vouchers[k], b.vouchers[k].lines[j];
      (v.vtype.Receipt? || v.vtype.Payment?) && !MoneyLine(b.chart, l) && l.amt <= 0 ==>
        KindIn(b.chart, l) != Some(Advance) && KindIn(b.chart, l) != Some(Loan)
  }

  // ------------------------------------------------------------------ one voucher

  lemma {:induction false} ReceiptOrPaymentCounts(chart: seq<Account>, v: Voucher, ls: seq<Line>)
    requires v.vtype.Receipt? || v.vtype.Payment?
    ensures OnAll(v, ls, ReceiptOf(chart)) - OnAll(v, ls, PaymentOf(chart)) == OnAll(v, ls, MoneyOf(chart)) - Net(ls)
    ensures OnAll(v, ls, DepositOf(chart)) == 0
  {
    if ls != [] {
      ReceiptOrPaymentCounts(chart, v, ls[..|ls| - 1]);
    }
  }

  lemma {:induction false} ContraCounts(chart: seq<Account>, v: Voucher, ls: seq<Line>)
    requires v.vtype.Contra? && InChart(ls, |chart|)
    requires forall j :: 0 <= j < |ls| ==> IsMoney(KindOf(chart, ls[j])) || KindOf(chart, ls[j]).Invest?
    ensures OnAll(v, ls, ReceiptOf(chart)) == OnAll(v, ls, PaymentOf(chart)) == 0
    ensures OnAll(v, ls, MoneyOf(chart)) + OnAll(v, ls, DepositOf(chart)) == Net(ls)
  {
    if ls != [] {
      ContraCounts(chart, v, ls[..|ls| - 1]);
    }
  }

  lemma {:induction false} JournalCounts(chart: seq<Account>, v: Voucher, ls: seq<Line>)
    requires v.vtype.Journal? && InChart(ls, |chart|) && !HasMoney(chart, ls)
    ensures OnAll(v, ls, ReceiptOf(chart)) == OnAll(v, ls, PaymentOf(chart)) == 0
    ensures OnAll(v, ls, MoneyOf(chart)) == OnAll(v, ls, DepositOf(chart)) == 0
  {
    if ls != [] {
      JournalCounts(chart, v, ls[..|ls| - 1]);
    }
  }

  /** The four-line fund payment: its cost is counted, its fund line and its income line are not. */
  lemma {:induction false} FundLinesCount(chart: seq<Account>, v: Voucher, ls: seq<Line>)
    requires v.vtype.PaymentFromFund? && InChart(ls, |chart|)
    requires forall j :: 0 <= j < |ls| && ls[j].amt > 0 ==>
         var k := KindOf(chart, ls[j]); k.Fund? || k.Expense? || k.Fixed?
    requires forall j :: 0 <= j < |ls| && ls[j].amt < 0 ==> var k := KindOf(chart, ls[j]); IsMoney(k) || k.Income?
    ensures OnAll(v, ls, ReceiptOf(chart)) == OnAll(v, ls, DepositOf(chart)) == 0
    ensures OnAll(v, ls, MoneyOf(chart)) == -SideSum(chart, ls, IsMoney, false)
    ensures SideSum(chart, ls, IsFund, true) + OnAll(v, ls, PaymentOf(chart))
         == Net(ls) + SideSum(chart, ls, IsMoney, false) + SideSum(chart, ls, IsIncome, false)
  {
    if ls != [] {
      FundLinesCount(chart, v, ls[..|ls| - 1]);
    }
  }

  /** A fund payment is a payment of its cost, once: exactly the money that left. */
  lemma {:induction false} FundPaymentCountsItsCostOnce(chart: seq<Account>, v: Voucher)
    requires ValidVoucher(chart, v) && v.vtype.PaymentFromFund?
    ensures OnAll(v, v.lines, PaymentOf(chart)) == -OnAll(v, v.lines, MoneyOf(chart))
         == SideSum(chart, v.lines, IsFund, true)
    ensures OnAll(v, v.lines, ReceiptOf(chart)) == 0
  {
    FundLinesCount(chart, v, v.lines);
  }

  lemma {:induction false} VoucherCounts(chart: seq<Account>, v: Voucher)
    requires ValidVoucher(chart, v)
    ensures OnAll(v, v.lines, ReceiptOf(chart)) - OnAll(v, v.lines, PaymentOf(chart))
         == OnAll(v, v.lines, MoneyOf(chart)) + OnAll(v, v.lines, DepositOf(chart))
  {
    match v.vtype
    case Contra => ContraCounts(chart, v, v.lines);
    case Journal => JournalCounts(chart, v, v.lines);
    case PaymentFromFund => FundLinesCount(chart, v, v.lines);
    case Receipt => ReceiptOrPaymentCounts(chart, v, v.lines);
    case Payment => ReceiptOrPaymentCounts(chart, v, v.lines);
  }

  lemma {:induction false} VouchersCount(chart: seq<Account>, vs: seq<Voucher>)
    requires ValidVouchers(chart, vs)
    ensures Whole(vs, ReceiptOf(chart)) - Whole(vs, PaymentOf(chart))
         == Whole(vs, MoneyOf(chart)) + Whole(vs, DepositOf(chart))
  {
    if vs != [] {
      VouchersCount(chart, vs[..|vs| - 1]);
      VoucherCounts(chart, vs[|vs| - 1]);
    }
  }

  // ------------------------------------------------------------------ the account

  lemma {:induction false} MoneyOnAcct(chart: seq<Account>, v: Voucher, ls: seq<Line>, n: int)
    requires 0 <= n < |chart|
    ensures OnAcct(v, ls, MoneyOf(chart), n) == if IsMoney(chart[n].kind) then Delta(ls, n) else 0
  {
    if ls != [] {
      MoneyOnAcct(chart, v, ls[..|ls| - 1], n);
    }
  }

  lemma {:induction false} MoneyTally(chart: seq<Account>, vs: seq<Voucher>, n: int, date: int)
    requires 0 <= n < |chart| && forall k :: 0 <= k < |vs| ==> vs[k].date <= date
    ensures Tally(vs, MoneyOf(chart), n) == if IsMoney(chart[n].kind) then DeltaUptoOf(vs, n, date) else 0
  {
    if vs != [] {
      MoneyTally(chart, vs[..|vs| - 1], n, date);
      MoneyOnAcct(chart, vs[|vs| - 1], vs[|vs| - 1].lines, n);
    }
  }

  /** Opening cash and bank, and what the vouchers moved, are the closing cash and bank. */
  lemma MoneyCloses(b: BookData)
    requires Balanced(b)
    ensures KindTotal(b.chart, Closing(b), IsMoney)
         == KindTotal(b.chart, Opening(b), IsMoney) + Whole(b.vouchers, MoneyOf(b.chart))
  {
    ClosingsBalance(b);
    forall n | 0 <= n < N(b)
      ensures KindTerm(b.chart, Closing(b), IsMoney)(n)
           == KindTerm(b.chart, Opening(b), IsMoney)(n) + TallyOf(b.vouchers, MoneyOf(b.chart))(n)
    {
      BalAtIsDelta(b, n, FY_END);
      MoneyTally(b.chart, b.vouchers, n, FY_END);
    }
    SumToAdd(KindTerm(b.chart, Opening(b), IsMoney), TallyOf(b.vouchers, MoneyOf(b.chart)),
      KindTerm(b.chart, Closing(b), IsMoney), N(b));
    TallyAddsUp(b.vouchers, MoneyOf(b.chart), N(b));
  }

  /** The two totals of the account. */
  function ReceiptSide(b: BookData): int {
    KindTotal(b.chart, Opening(b), IsMoney) + SumTo(TallyOf(b.vouchers, ReceiptOf(b.chart)), N(b))
  }

  function PaymentSide(b: BookData): int {
    SumTo(TallyOf(b.vouchers, PaymentOf(b.chart)), N(b)) + KindTotal(b.chart, Closing(b), IsMoney)
  }

  /** The receipts side exceeds the payments side by exactly what transfers moved into deposits: a deposit is
      not money, and a transfer is left out. */
  lemma ReceiptsAndPayments(b: BookData)
    requires ValidVouchers(b.chart, b.vouchers) && Balanced(b)
    ensures ReceiptSide(b) - PaymentSide(b) == MovedIntoDeposits(b)
  {
    MoneyCloses(b);
    VouchersCount(b.chart, b.vouchers);
    TallyAddsUp(b.vouchers, ReceiptOf(b.chart), N(b));
    TallyAddsUp(b.vouchers, PaymentOf(b.chart), N(b));
  }

  // ------------------------------------------------------------------ the report's loop

  function Got(m: map<nat, int>, n: int): int {
    if n in m then m[n] else 0
  }

  function AddTo(m: map<nat, int>, n: nat, x: int): map<nat, int> {
    m[n := Got(m, n) + x]
  }

  /** The dictionary holds the figure `g` of the vouchers so far and of part of the next one. */
  ghost predicate Holding(m: map<nat, int>, vs: seq<Voucher>, v: Voucher, ls: seq<Line>, g: (Voucher, Line) -> int) {
    forall n: int :: Got(m, n) == Tally(vs, g, n) + OnAcct(v, ls, g, n)
  }

  lemma HoldOneMore(m: map<nat, int>, vs: seq<Voucher>, v: Voucher, ls: seq<Line>, l: Line, g: (Voucher, Line) -> int)
    requires Holding(m, vs, v, ls, g)
    ensures Holding(AddTo(m, l.acct, g(v, l)), vs, v, ls + [l], g)
    ensures g(v, l) == 0 ==> Holding(m, vs, v, ls + [l], g)
  {
    assert (ls + [l])[..|ls|] == ls;
  }

  /** One voucher's lines, as the report's loop sorts them. */
  method CollectVoucher(chart: seq<Account>, ghost vs: seq<Voucher>, v: Voucher, rec0: map<nat, int>,
                        pay0: map<nat, int>)
    returns (receipts: map<nat, int>, payments: map<nat, int>)
    requires Holding(rec0, vs, v, [], ReceiptOf(chart)) && Holding(pay0, vs, v, [], PaymentOf(chart))
    ensures Holding(receipts, vs, v, v.lines, ReceiptOf(chart)) && Holding(payments, vs, v, v.lines, PaymentOf(chart))
  {
    receipts, payments := rec0, pay0;
    for j := 0 to |v.lines|
      invariant Holding(receipts, vs, v, v.lines[..j], ReceiptOf(chart))
      invariant Holding(payments, vs, v, v.lines[..j], PaymentOf(chart))
    {
      var l := v.lines[j];
      HoldOneMore(receipts, vs, v, v.lines[..j], l, ReceiptOf(chart));
      HoldOneMore(payments, vs, v, v.lines[..j], l, PaymentOf(chart));
      assert v.lines[..j + 1] == v.lines[..j] + [l];
      if v.vtype.PaymentFromFund? {
        if l.amt > 0 && CostLine(chart, l) {
          payments := AddTo(payments, l.acct, l.amt);
        }
      } else if !v.vtype.Contra? && !v.vtype.Journal? && !MoneyLine(chart, l) {
        if l.amt < 0 {
          receipts := AddTo(receipts, l.acct, -l.amt);
        } else {
          payments := AddTo(payments, l.acct, l.amt);
        }
      }
    }
    assert v.lines[..|v.lines|] == v.lines;
  }

  /** Receipts and payments by account, collected voucher by voucher. */
  method Collect(b: BookData) returns (receipts: map<nat, int>, payments: map<nat, int>)
    ensures forall n: int :: Got(receipts, n) == Tally(b.vouchers, ReceiptOf(b.chart), n)
    ensures forall n: int :: Got(payments, n) == Tally(b.vouchers, PaymentOf(b.chart), n)
  {
    receipts, payments := map[], map[];
    var vs := b.vouchers;
    for k := 0 to |vs|
      invariant forall n: int :: Got(receipts, n) == Tally(vs[..k], ReceiptOf(b.chart), n)
      invariant forall n: int :: Got(payments, n) == Tally(vs[..k], PaymentOf(b.chart), n)
    {
      receipts, payments := CollectVoucher(b.chart, vs[..k], vs[k], receipts, payments);
      assert vs[..k + 1][..k] == vs[..k];
    }
    assert vs[..|vs|] == vs;
  }

  function GotOf(m: map<nat, int>): int -> int {
    n => Got(m, n)
  }

  /** The whole report: the build goes through exactly when no advance or loan is credited by a payment and the
      transfers into and out of deposits cancel. */
  method Account(b: BookData) returns (tr: int, tp: int, ok: bool)
    requires ValidVouchers(b.chart, b.vouchers) && Balanced(b)
    ensures tr == ReceiptSide(b) && tp == PaymentSide(b) && tr - tp == MovedIntoDeposits(b)
    ensures ok <==> RpShape(b) && MovedIntoDeposits(b) == 0
    ensures ok <==> NoAdvanceIsCredited(b) && MovedIntoDeposits(b) == 0
  {
    var receipts, payments := Collect(b);
    tr := KindTotal(b.chart, Opening(b), IsMoney) + SumTo(GotOf(receipts), N(b));
    tp := SumTo(GotOf(payments), N(b)) + KindTotal(b.chart, Closing(b), IsMoney);
    ok := RpShape(b) && tr == tp;
    SumToEq(GotOf(receipts), TallyOf(b.vouchers, ReceiptOf(b.chart)), N(b));
    SumToEq(GotOf(payments), TallyOf(b.vouchers, PaymentOf(b.chart)), N(b));
    ReceiptsAndPayments(b);
    ShapeByKinds(b);
  }

  /** No receipt or payment credits an advance or a loan. */
  predicate NoAdvanceIsCredited(b: BookData)
    requires ValidVouchers(b.chart, b.vouchers)
  {
    forall k, j :: 0 <= k < |b.vouchers| && 0 <= j < |b.vouchers[k].lines| ==>
      b.vouchers[k].vtype in {Receipt, Payment} && b.vouchers[k].lines[j].amt < 0 ==>
        KindOf(b.chart, b.vouchers[k].lines[j]) !in {Advance, Loan}
  }

  lemma ShapeByKinds(b: BookData)
    requires ValidVouchers(b.chart, b.vouchers)
    ensures RpShape(b) <==> NoAdvanceIsCredited(b)
  {
    forall k, j | 0 <= k < |b.vouchers| && 0 <= j < |b.vouchers[k].lines|
      ensures b.vouchers[k].lines[j].amt != 0 && b.vouchers[k].lines[j].acct < |b.chart|
    {
      assert ValidVoucher(b.chart, b.vouchers[k]);
    }
  }
}
