/** Small books that pass every check on vouchers and balances, and yet break an assertion of a report, of the close or
    of a pair of books: a family of books for each. */
module Findings {
  import opened Totals
  import opened Lines
  import opened Ledger
  import opened BookPosting
  import opened VoucherRules
  import opened Options
  import opened Sharing
  import opened YearClose
  import opened Reports
  import opened CloseExact
  import opened BalanceSheet
  import opened Family
  import opened CostMethod
  import opened PassingBooks
  import R = ReceiptsPayments

  // ------------------------------------------------------------------ short sums

  lemma SumToTwo(f: int -> int)
    ensures SumTo(f, 2) == f(0) + f(1)
  {
    assert SumTo(f, 1) == f(0);
  }

  lemma SumToThree(f: int -> int)
    ensures SumTo(f, 3) == f(0) + f(1) + f(2)
  {
    SumToTwo(f);
  }

  lemma SumToFour(f: int -> int)
    ensures SumTo(f, 4) == f(0) + f(1) + f(2) + f(3)
  {
    SumToThree(f);
  }

  lemma SumToFive(f: int -> int)
    ensures SumTo(f, 5) == f(0) + f(1) + f(2) + f(3) + f(4)
  {
    SumToFour(f);
  }

  /** A two-line voucher of money against an account that is neither money nor a collection box passes its checks. */
  lemma MoneyVoucherPasses(chart: seq<Account>, v: Voucher)
    requires v.vtype.Receipt? || v.vtype.Payment?
    requires |v.lines| == 2 && InChart(v.lines, |chart|) && v.lines[0].acct != v.lines[1].acct
    requires v.lines[0].amt > 0 && v.lines[1].amt == -v.lines[0].amt
    requires var money := if v.vtype.Receipt? then 0 else 1; KindOf(chart, v.lines[money]).Cash?
    requires var other := if v.vtype.Receipt? then 1 else 0;
      !IsMoney(KindOf(chart, v.lines[other])) && !KindOf(chart, v.lines[other]).Gollak?
    ensures ValidVoucher(chart, v)
  {
    var ls := v.lines;
    TwoLineSums(chart, ls[0], ls[1], IsMoney, true);
    assert ls == [ls[0], ls[1]];
    assert IsMoney(KindOf(chart, ls[if v.vtype.Receipt? then 0 else 1]));
  }

  // ------------------------------------------------------------------ a fund spent past nil

  /** A book with a fund that holds `held`, before any entry. */
  function FundOpen(cash: int, held: int): BookData {
    BookData([Account(Cash, cash, false), Account(Fund, -held, false), Account(Capital, held - cash, false),
              Account(Income, 0, false), Account(Expense, 0, false)], [])
  }

  /** A cost is paid in cash from the fund. */
  function FundPayment(cost: int): Voucher {
    Voucher(10, PaymentFromFund, [Line(4, cost), Line(0, -cost), Line(1, cost), Line(3, -cost)])
  }

  function FundBook(cash: int, held: int, cost: int): BookData {
    WithVoucher(FundOpen(cash, held), FundPayment(cost))
  }

  lemma {:induction false} FundPaymentSums(chart: seq<Account>, v: Voucher, cost: int)
    requires v == FundPayment(cost) && cost > 0 && |chart| == 5 && chart[0].kind.Cash? && chart[1].kind.Fund?
    requires chart[3].kind.Income? && chart[4].kind.Expense?
    ensures InChart(v.lines, |chart|) && Net(v.lines) == 0
    ensures SideCount(chart, v.lines, IsFund, true) == 1 && SideCount(chart, v.lines, IsIncome, false) == 1
    ensures SideSum(chart, v.lines, IsFund, true) == cost && SideSum(chart, v.lines, IsIncome, false) == cost
    ensures SideSum(chart, v.lines, IsMoney, false) == cost
  {
    var ls := v.lines;
    assert ls == [ls[0], ls[1], ls[2], ls[3]];
    FourLineSums(chart, ls[0], ls[1], ls[2], ls[3], IsFund, true);
    FourLineSums(chart, ls[0], ls[1], ls[2], ls[3], IsIncome, false);
    FourLineSums(chart, ls[0], ls[1], ls[2], ls[3], IsMoney, false);
  }

  lemma FundPaymentPasses(chart: seq<Account>, v: Voucher, cost: int)
    requires v == FundPayment(cost) && cost > 0 && |chart| == 5 && chart[0].kind.Cash? && chart[1].kind.Fund?
    requires chart[3].kind.Income? && chart[4].kind.Expense?
    ensures ValidVoucher(chart, v) && DoubleEntry(chart, v.lines)
  {
    FundPaymentSums(chart, v, cost);
    assert IsMoney(KindOf(chart, v.lines[1]));
  }

  lemma FundOpenPasses(b: BookData, cash: int, held: int)
    requires b == FundOpen(cash, held) && 0 <= cash
    ensures ValidBook(b)
  {
    SumToFive(Opening(b));
    EmptyBookPasses(b, 0);
  }

  lemma FundPaymentFits(b: BookData, v: Voucher, cost: int)
    requires v == FundPayment(cost) && cost > 0 && N(b) == 5 && b.chart[0].kind.Cash? && b.chart[1].kind.Fund?
    requires b.chart[3].kind.Income? && b.chart[4].kind.Expense? && cost <= Closing(b)(0)
    ensures Fits(b, v)
  {
    var ls := v.lines;
    assert LineFits(b, ls[0]) && LineFits(b, ls[1]) && LineFits(b, ls[2]) && LineFits(b, ls[3]);
  }

  lemma FundPaymentMoves(b: BookData, v: Voucher, cost: int)
    requires v == FundPayment(cost) && DoubleEntry(b.chart, v.lines)
    ensures N(b) > 1 && Closing(WithVoucher(b, v))(1) == Closing(b)(1) + cost
  {
    assert v.lines[2] == Line(1, cost);
    ClosingWith(b, v, 1);
  }

  lemma FundBookPasses(b: BookData, v: Voucher, cash: int, held: int, cost: int)
    requires b == FundOpen(cash, held) && v == FundPayment(cost) && 0 < cost <= cash
    ensures ValidBook(WithVoucher(b, v)) && Closing(WithVoucher(b, v))(1) == cost - held
  {
    FundOpenPasses(b, cash, held);
    FundPaymentPasses(b.chart, v, cost);
    FundPaymentFits(b, v, cost);
    FundPaymentMoves(b, v, cost);
    VoucherKeepsPassing(b, v, 0);
  }

  /** With one fund, the position agrees exactly while that fund is not on the Dr side. */
  lemma FundDecides(b: BookData, k: nat)
    requires Balanced(b) && k < N(b) && b.chart[k].kind.Fund?
    requires forall i :: 0 <= i < N(b) && b.chart[i].kind.Fund? ==> i == k
    ensures MakeUp(b, FY_END) == PositionNet(b, FY_END) <==> Closing(b)(k) <= 0
  {
    PositionMakeUp(b, FY_END);
    ClosingsBalance(b);
  }

  /** Every such book passes every check; its position agrees with its make-up only while the fund covers the cost. */
  lemma OverspentFundBreaksThePosition(b: BookData, cash: int, held: int, cost: int)
    requires b == FundBook(cash, held, cost) && 0 < cost <= cash && 0 <= held
    ensures ValidBook(b)
    ensures MakeUp(b, FY_END) == PositionNet(b, FY_END) <==> cost <= held
  {
    FundBookPasses(FundOpen(cash, held), FundPayment(cost), cash, held, cost);
    ValidIsBalanced(b);
    FundDecides(b, 1);
  }

  // ------------------------------------------------------------------ a transfer into a deposit

  function DepositOpen(cash: int): BookData {
    BookData([Account(Cash, cash, false), Account(Invest, 0, false), Account(Capital, -cash, false)], [])
  }

  /** Part of the cash is put into a deposit. */
  function PutAside(aside: int): Voucher {
    Voucher(10, Contra, [Line(1, aside), Line(0, -aside)])
  }

  function DepositBook(cash: int, aside: int): BookData {
    WithVoucher(DepositOpen(cash), PutAside(aside))
  }

  lemma PutAsidePasses(chart: seq<Account>, v: Voucher, aside: int)
    requires v == PutAside(aside) && aside > 0 && |chart| == 3 && chart[0].kind.Cash? && chart[1].kind.Invest?
    ensures ValidVoucher(chart, v)
  {
    var ls := v.lines;
    TwoLineSums(chart, ls[0], ls[1], IsMoney, true);
    assert ls == [ls[0], ls[1]];
    assert IsMoney(KindOf(chart, ls[1]));
  }

  lemma DepositBookPasses(b: BookData, cash: int, aside: int)
    requires b == DepositOpen(cash) && 0 < aside <= cash
    ensures ValidBook(WithVoucher(b, PutAside(aside)))
  {
    SumToThree(Opening(b));
    EmptyBookPasses(b, 0);
    PutAsidePasses(b.chart, PutAside(aside), aside);
    VoucherKeepsPassing(b, PutAside(aside), 0);
  }

  lemma {:induction false} TwoLinesTally(v: Voucher, ls: seq<Line>, g: (Voucher, Line) -> int)
    requires |ls| == 2
    ensures R.OnAll(v, ls, g) == g(v, ls[0]) + g(v, ls[1])
  {
    var one := ls[..1];
    assert one[..0] == [];
    assert R.OnAll(v, one, g) == R.OnAll(v, one[..0], g) + g(v, one[0]);
  }

  lemma {:induction false} OneVoucherTally(vs: seq<Voucher>, g: (Voucher, Line) -> int)
    requires |vs| == 1
    ensures R.Whole(vs, g) == R.OnAll(vs[0], vs[0].lines, g)
  {
    assert vs[..0] == [];
  }

  lemma DepositBookMoves(b: BookData, cash: int, aside: int)
    requires b == DepositBook(cash, aside)
    ensures R.MovedIntoDeposits(b) == aside
  {
    var g, v := R.DepositOf(b.chart), b.vouchers[0];
    OneVoucherTally(b.vouchers, g);
    TwoLinesTally(v, v.lines, g);
    assert v.lines[0] == Line(1, aside) && v.lines[1] == Line(0, -aside);
    assert R.KindIn(b.chart, v.lines[0]) == Some(Invest) && R.KindIn(b.chart, v.lines[1]) == Some(Cash);
  }

  /** Every such book passes every check, and its Receipts & Payments account is out by what was put aside. */
  lemma DepositBreaksReceiptsAndPayments(b: BookData, cash: int, aside: int)
    requires b == DepositBook(cash, aside) && 0 < aside <= cash
    ensures ValidBook(b) && R.ReceiptSide(b) - R.PaymentSide(b) == aside
  {
    DepositBookPasses(DepositOpen(cash), cash, aside);
    ValidIsBalanced(b);
    R.ReceiptsAndPayments(b);
    DepositBookMoves(b, cash, aside);
  }

  // ------------------------------------------------------------------ a partner's drawings in a partnership

  function FirmOpen(cash: int): BookData {
    BookData([Account(Cash, cash, false), Account(PartnerAc, -cash, false), Account(Income, 0, false),
      Account(Drawings, 0, false)], [])
  }

  function Earned(income: int): Voucher {
    Voucher(10, Receipt, [Line(0, income), Line(2, -income)])
  }

  function Drawn(amt: int): Voucher {
    Voucher(20, Payment, [Line(3, amt), Line(0, -amt)])
  }

  /** A firm of one partner account earns an income, and drawings are taken in cash. */
  function FirmBook(cash: int, income: int, drawn: int): BookData {
    WithVoucher(WithVoucher(FirmOpen(cash), Earned(income)), Drawn(drawn))
  }

  const ONE_PARTNER := [Partner(None, 1, 1, 0)]

  lemma FirmOpenPasses(b: BookData, cash: int)
    requires b == FirmOpen(cash) && 0 <= cash
    ensures ValidBook(b)
  {
    SumToFour(Opening(b));
    EmptyBookPasses(b, 0);
  }

  /** A two-line voucher's effect on the accounts it names and on one it does not. */
  lemma TwoLinesMove(b: BookData, v: Voucher, other: nat)
    requires DoubleEntry(b.chart, v.lines) && |v.lines| == 2 && other < N(b)
    requires other != v.lines[0].acct && other != v.lines[1].acct
    ensures Closing(WithVoucher(b, v))(v.lines[0].acct) == Closing(b)(v.lines[0].acct) + v.lines[0].amt
    ensures Closing(WithVoucher(b, v))(v.lines[1].acct) == Closing(b)(v.lines[1].acct) + v.lines[1].amt
    ensures Closing(WithVoucher(b, v))(other) == Closing(b)(other)
  {
    ClosingWith(b, v, v.lines[0].acct);
    ClosingWith(b, v, v.lines[1].acct);
    ClosingWith(b, v, other);
  }

  lemma EarnedFits(b: BookData, v: Voucher, income: int)
    requires N(b) == 4 && b.chart[0].kind.Cash? && b.chart[2].kind.Income?
    requires v == Earned(income) && income > 0 && Closing(b)(0) >= 0
    ensures ValidVoucher(b.chart, v) && DoubleEntry(b.chart, v.lines) && Fits(b, v)
    ensures |v.lines| == 2 && v.lines[0] == Line(0, income) && v.lines[1] == Line(2, -income)
  {
    MoneyVoucherPasses(b.chart, v);
  }

  lemma DrawnFits(b: BookData, v: Voucher, drawn: int)
    requires N(b) == 4 && b.chart[0].kind.Cash? && b.chart[3].kind.Drawings?
    requires v == Drawn(drawn) && 0 < drawn <= Closing(b)(0)
    ensures ValidVoucher(b.chart, v) && DoubleEntry(b.chart, v.lines) && Fits(b, v)
    ensures |v.lines| == 2 && v.lines[0] == Line(3, drawn) && v.lines[1] == Line(0, -drawn)
  {
    MoneyVoucherPasses(b.chart, v);
  }

  lemma FirmBookEarns(b: BookData, v: Voucher, income: int)
    requires ValidBook(b) && N(b) == 4 && b.chart[0].kind.Cash? && b.chart[2].kind.Income? && b.vouchers == []
    requires v == Earned(income) && income > 0 && Closing(b)(0) >= 0
    ensures ValidBook(WithVoucher(b, v))
    ensures Closing(WithVoucher(b, v))(0) == Closing(b)(0) + income
    ensures Closing(WithVoucher(b, v))(2) == Closing(b)(2) - income && Closing(WithVoucher(b, v))(3) == Closing(b)(3)
  {
    EarnedFits(b, v, income);
    TwoLinesMove(b, v, 3);
    VoucherKeepsPassing(b, v, 0);
  }

  lemma FirmBookDraws(b: BookData, v: Voucher, drawn: int)
    requires ValidBook(b) && N(b) == 4 && b.chart[0].kind.Cash? && b.chart[3].kind.Drawings?
    requires b.vouchers != [] ==> b.vouchers[|b.vouchers| - 1].date <= 20
    requires v == Drawn(drawn) && 0 < drawn <= Closing(b)(0)
    ensures ValidBook(WithVoucher(b, v))
    ensures Closing(WithVoucher(b, v))(2) == Closing(b)(2) && Closing(WithVoucher(b, v))(3) == Closing(b)(3) + drawn
  {
    DrawnFits(b, v, drawn);
    TwoLinesMove(b, v, 2);
    VoucherKeepsPassing(b, v, 0);
  }

  lemma FirmBookFigures(b: BookData, cash: int, income: int, drawn: int)
    requires b == FirmBook(cash, income, drawn) && 0 <= cash && 0 < income && 0 < drawn <= cash + income
    ensures ValidBook(b) && N(b) == 4
    ensures b.chart == FirmOpen(cash).chart
    ensures Closing(b)(2) == -income && Closing(b)(3) == drawn
  {
    FirmOpenPasses(FirmOpen(cash), cash);
    FirmBookEarns(FirmOpen(cash), Earned(income), income);
    FirmBookDraws(WithVoucher(FirmOpen(cash), Earned(income)), Drawn(drawn), drawn);
  }

  lemma OneIncomeHead(chart: seq<Account>, f: int -> int, income: int)
    requires |chart| == 4 && chart[0].kind.Cash? && chart[1].kind.PartnerAc? && chart[2].kind.Income?
         && chart[3].kind.Drawings? && f(2) == -income
    ensures Result(chart, f) == income
  {
    assert !IsIncome(chart[0].kind) && !IsIncome(chart[1].kind) && IsIncome(chart[2].kind) && !IsIncome(chart[3].kind);
    assert !IsExpense(chart[0].kind) && !IsExpense(chart[1].kind) && !IsExpense(chart[2].kind)
        && !IsExpense(chart[3].kind);
    SumToPoint(KindTerm(chart, f, IsIncome), 2, -income, 4);
    SumToZero(KindTerm(chart, f, IsExpense), 4);
  }

  lemma OnePartnerCanClose(b: BookData, income: int)
    requires N(b) == 4 && b.chart[0].kind.Cash? && b.chart[1].kind.PartnerAc? && b.chart[2].kind.Income?
         && b.chart[3].kind.Drawings?
    requires Closing(b)(2) == -income && income > 0
    ensures CanClose(b.chart, ONE_PARTNER, Closing(b))
  {
    OneIncomeHead(b.chart, Closing(b), income);
    OnePartnersTerms(ONE_PARTNER, Closing(b));
  }

  lemma {:induction false} OnePartnersTerms(ps: seq<Partner>, closing: int -> int)
    requires |ps| == 1 && ps[0].capital.None?
    ensures Sum(Interests(closing, ps)) == 0 && Weight(Ratio(ps)) == ps[0].share
  {
    assert Interests(closing, ps)[..0] == [] && Ratio(ps)[..0] == [];
  }

  /** Every such book passes every check and its close goes through, and the close's last check fails: the drawings
      stand where they stood. */
  lemma DrawingsStayOpenInAFirm(b: BookData, cash: int, income: int, drawn: int)
    requires b == FirmBook(cash, income, drawn) && 0 <= cash && 0 < income && 0 < drawn <= cash + income
    ensures ValidBook(b) && CanClose(b.chart, ONE_PARTNER, Closing(b))
    ensures !HeadsAreNil(b, ONE_PARTNER)
  {
    FirmBookFigures(b, cash, income, drawn);
    OnePartnerCanClose(b, income);
    PartnersCloseLeavesDrawings(b, ONE_PARTNER);
    assert IsTakenHead(b.chart[3].kind) && Closing(b)(3) == drawn;
  }

  // ------------------------------------------------------------------ two partners on one account

  const TWO_PARTNERS := [Partner(None, 1, 1, 0), Partner(None, 1, 1, 0)]

  lemma {:induction false} TwoPartnersTerms(ps: seq<Partner>, closing: int -> int)
    requires |ps| == 2 && ps[0].capital.None? && ps[1].capital.None?
    ensures Sum(Interests(closing, ps)) == 0 && Weight(Ratio(ps)) == ps[0].share + ps[1].share
  {
    var one := [ps[0]];
    OnePartnersTerms(one, closing);
    assert Interests(closing, ps)[..1] == Interests(closing, one) && Ratio(ps)[..1] == Ratio(one);
  }

  /** Of two amounts that come to more than nothing, one is more than nothing. */
  lemma {:induction false} OneOfTwo(amts: seq<int>)
    requires |amts| == 2 && Sum(amts) > 0
    ensures amts[0] != 0 || amts[1] != 0
  {
    var one := amts[..1];
    assert one[..0] == [] && Sum(one) == amts[0];
  }

  /** Whatever the book: of two partners on one account, not both have rows that hold. */
  lemma OneAccountForTwo(b: BookData, ps: seq<Partner>)
    requires |ps| == 2 && CanClose(b.chart, ps, Closing(b)) && OnTheSheet(b.chart, ps[0]) && OnTheSheet(b.chart, ps[1])
    requires ps[0].current == ps[1].current
    ensures !RowHolds(b, ps, 0) || !RowHolds(b, ps, 1)
  {
    PartnerPayIsTheResult(b.chart, ps, Closing(b));
    OneOfTwo(PartnerPay(b.chart, ps, Closing(b)));
    EachPartnerHasHisAccount(b, ps, 0);
    EachPartnerHasHisAccount(b, ps, 1);
  }

  lemma TwoPartnersCanClose(b: BookData, ps: seq<Partner>, income: int)
    requires N(b) == 4 && b.chart[0].kind.Cash? && b.chart[1].kind.PartnerAc? && b.chart[2].kind.Income?
         && b.chart[3].kind.Drawings?
    requires Closing(b)(2) == -income && income > 0
    requires |ps| == 2 && ps[0].capital.None? && ps[1].capital.None? && ps[0].share + ps[1].share > 0
    ensures CanClose(b.chart, ps, Closing(b))
  {
    OneIncomeHead(b.chart, Closing(b), income);
    TwoPartnersTerms(ps, Closing(b));
  }

  /** Every such firm passes every check and its close goes through; not every partner's row of its balance sheet
      holds. */
  lemma PartnersShareAnAccount(b: BookData, cash: int, income: int)
    requires b == WithVoucher(FirmOpen(cash), Earned(income)) && 0 <= cash && 0 < income
    ensures ValidBook(b) && CanClose(b.chart, TWO_PARTNERS, Closing(b))
    ensures !RowHolds(b, TWO_PARTNERS, 0) || !RowHolds(b, TWO_PARTNERS, 1)
  {
    FirmOpenPasses(FirmOpen(cash), cash);
    FirmBookEarns(FirmOpen(cash), Earned(income), income);
    TwoPartnersCanClose(b, TWO_PARTNERS, income);
    OneAccountForTwo(b, TWO_PARTNERS);
  }

  // ------------------------------------------------------------------ an owner's account that is a head

  /** A business owned by another book, whose owner's account is an income head. */
  function HeadOwned(cash: int): BookData {
    BookData([Account(Cash, cash, false), Account(Income, -cash, true)], [])
  }

  lemma OwnerIsTheHead(chart: seq<Account>)
    requires |chart| == 2 && !chart[0].kind.Capital? && !chart[1].kind.Capital? && !chart[0].owner && chart[1].owner
    ensures OwnerAccount(chart) == Some(1)
  {
    var isCapital := (a: Account) => a.kind.Capital?;
    var isOwner := (a: Account) => a.owner;
    assert FirstWhere(chart, isCapital, 1) == None;
    assert FirstWhere(chart, isOwner, 0) == None && !isOwner(chart[0]);
    assert FirstWhere(chart, isOwner, 1) == None;
  }

  lemma HeadOfTwo(chart: seq<Account>, f: int -> int, cash: int)
    requires |chart| == 2 && chart[0].kind.Cash? && chart[1].kind.Income? && f(1) == -cash
    ensures Result(chart, f) == cash && KindTotal(chart, f, IsTakenHead) == 0
  {
    assert !IsIncome(chart[0].kind) && IsIncome(chart[1].kind);
    assert !IsExpense(chart[0].kind) && !IsExpense(chart[1].kind);
    assert !IsTakenHead(chart[0].kind) && !IsTakenHead(chart[1].kind);
    SumToPoint(KindTerm(chart, f, IsIncome), 1, -cash, 2);
    SumToZero(KindTerm(chart, f, IsExpense), 2);
    SumToZero(KindTerm(chart, f, IsTakenHead), 2);
  }

  lemma HeadOwnedFigures(b: BookData, cash: int)
    requires N(b) == 2 && b.vouchers == [] && b.chart[0].kind.Cash? && b.chart[1].kind.Income?
    requires b.chart[1].opening == -cash
    ensures Result(b.chart, Closing(b)) == cash && KindTotal(b.chart, Closing(b), IsTakenHead) == 0
  {
    NoEntries(b, {}, 0);
    HeadOfTwo(b.chart, Closing(b), cash);
  }

  /** Every such book passes every check; its close leaves the head open, and carries balances that do not agree, as
      soon as there is a result. */
  lemma OwnersHeadStaysOpen(b: BookData, cash: int)
    requires b == HeadOwned(cash) && 0 <= cash
    ensures ValidBook(b) && CanClose(b.chart, [], Closing(b))
    ensures HeadsAreNil(b, []) <==> cash == 0
    ensures KindTotal(b.chart, After(b, []), IsBs) == 0 <==> cash == 0
  {
    SumToTwo(Opening(b));
    EmptyBookPasses(b, 0);
    ValidIsBalanced(b);
    OwnerIsTheHead(b.chart);
    HeadOwnedFigures(b, cash);
    OwnerCloseIsExact(b);
    CarriedBalancesAddUp(b, []);
  }

  // ------------------------------------------------------------------ the cost method, out in each of its ways

  /** A business without entries: cash, the owner's capital, and drawings brought in. */
  function Business(capital: int, drawn: int): BookData {
    BookData([Account(Cash, capital - drawn, false), Account(Capital, -capital, false),
      Account(Drawings, drawn, false)], [])
  }

  /** Its owner's book: the stake, an income head brought in at `head`, and a running account with the business. */
  function Owner(stake: int, head: int, running: int): BookData {
    BookData([Account(Cash, 0, false), Account(Stake, stake, false), Account(Income, head, false),
              Account(Party, running, false), Account(Capital, -stake - head - running, false)], [])
  }

  lemma BusinessPasses(b: BookData, capital: int, drawn: int)
    requires b == Business(capital, drawn) && drawn <= capital
    ensures ValidBook(b)
  {
    SumToThree(Opening(b));
    EmptyBookPasses(b, 0);
  }

  lemma OwnerPasses(o: BookData, stake: int, head: int, running: int)
    requires o == Owner(stake, head, running)
    ensures ValidBook(o)
  {
    SumToFive(Opening(o));
    EmptyBookPasses(o, 0);
  }

  lemma {:induction false} NoEntries(b: BookData, names: set<int>, n: nat)
    requires b.vouchers == [] && n <= N(b)
    ensures PairEntries(b, names, n) == []
    ensures forall i :: Closing(b)(i) == Opening(b)(i)
  {
    if n > 0 {
      NoEntries(b, names, n - 1);
    }
  }

  function NamedAt(b: BookData, names: set<int>, p: Kind -> bool, f: int -> int, i: nat): int
    requires i < N(b)
  {
    if i in names && p(b.chart[i].kind) then f(i) else 0
  }

  lemma NamedOfThree(b: BookData, names: set<int>, p: Kind -> bool, f: int -> int)
    requires N(b) == 3
    ensures NamedTotal(b, names, p, f)
         == NamedAt(b, names, p, f, 0) + NamedAt(b, names, p, f, 1) + NamedAt(b, names, p, f, 2)
  {
    SumToThree(Named(b, names, p, f));
  }

  lemma NamedOfFive(b: BookData, names: set<int>, p: Kind -> bool, f: int -> int)
    requires N(b) == 5
    ensures NamedTotal(b, names, p, f)
         == NamedAt(b, names, p, f, 0) + NamedAt(b, names, p, f, 1) + NamedAt(b, names, p, f, 2)
                                        + NamedAt(b, names, p, f, 3) + NamedAt(b, names, p, f, 4)
  {
    SumToFive(Named(b, names, p, f));
  }

  /** What the cost method reads of the owner's book and of the business's book. */
  predicate IsOwnersBook(o: BookData, stake: int, head: int, running: int) {
    && N(o) == 5 && o.vouchers == []
    && o.chart[1].kind.Stake? && o.chart[2].kind.Income? && o.chart[3].kind.Party?
    && o.chart[1].opening == stake && o.chart[2].opening == head && o.chart[3].opening == running
  }

  predicate IsBusinessBook(b: BookData, capital: int, drawn: int) {
    && N(b) == 3 && b.vouchers == []
    && b.chart[0].kind.Cash? && b.chart[1].kind.Capital? && b.chart[2].kind.Drawings?
    && b.chart[1].opening == -capital && b.chart[2].opening == drawn
  }

  const PAIR_ACCOUNTS: set<int> := {1, 2, 3}

  lemma {:induction false} OwnersOpenings(o: BookData, stake: int, head: int, running: int, names: set<int>)
    requires IsOwnersBook(o, stake, head, running) && forall i :: i in names <==> 1 <= i <= 3
    ensures NamedTotal(o, names, IsBs, Opening(o)) == stake + running
    ensures PairEntries(o, names, 5) == []
  {
    NamedOfFive(o, names, IsBs, Opening(o));
    NoEntries(o, names, 5);
  }

  lemma {:induction false} BusinessOpenings(b: BookData, capital: int, drawn: int, names: set<int>)
    requires IsBusinessBook(b, capital, drawn) && forall i :: i in names <==> i == 1
    ensures NamedTotal(b, names, IsBs, Opening(b)) == -capital
    ensures PairEntries(b, names, 3) == []
  {
    NamedOfThree(b, names, IsBs, Opening(b));
    NoEntries(b, names, 3);
  }

  lemma OwnersPairAgrees(o: BookData, b: BookData, stake: int, head: int, running: int, drawn: int, oa: set<int>,
      ba: set<int>)
    requires IsOwnersBook(o, stake, head, running) && IsBusinessBook(b, stake + running, drawn)
    requires (forall i :: i in oa <==> 1 <= i <= 3) && (forall i :: i in ba <==> i == 1)
    ensures PairAgrees(o, oa, b, ba)
  {
    OwnersOpenings(o, stake, head, running, oa);
    BusinessOpenings(b, stake + running, drawn, ba);
    assert Mirror([]) == [];
  }

  /** What the two books close with. */
  lemma OwnersFigures(o: BookData, stake: int, head: int, running: int, names: set<int>)
    requires IsOwnersBook(o, stake, head, running) && forall i :: i in names <==> 1 <= i <= 3
    ensures Takes(o, names) == -head
    ensures NamedTotal(o, names, IsBeside, Closing(o)) == running && HeadOpenings(o, names) == head
  {
    NoEntries(o, names, 0);
    NamedOfFive(o, names, IsIncome, Closing(o));
    NamedOfFive(o, names, IsBeside, Closing(o));
    NamedOfFive(o, names, IsHead, Opening(o));
  }

  lemma FirstCapital(chart: seq<Account>)
    requires |chart| == 3 && !chart[0].kind.Capital? && chart[1].kind.Capital?
    ensures OwnerAccount(chart) == Some(1)
  {
    var isCapital := (a: Account) => a.kind.Capital?;
    assert FirstWhere(chart, isCapital, 1) == None;
    assert FirstWhere(chart, isCapital, 2) == Some(1);
  }

  lemma BusinessFigures(b: BookData, capital: int, drawn: int, names: set<int>)
    requires IsBusinessBook(b, capital, drawn) && forall i :: i in names <==> i == 1
    ensures OwnerAccount(b.chart) == Some(1) && OwnerIsHeld(b, names)
    ensures NamedTotal(b, names, NotEquity, Closing(b)) == 0 && HeadOpenings(b, names) == 0
    ensures TakenOutside(b, names) == drawn
  {
    NoEntries(b, names, 0);
    FirstCapital(b.chart);
    SumToThree(KindTerm(b.chart, Closing(b), IsTakenHead));
    NamedOfThree(b, names, IsTakenHead, Closing(b));
    NamedOfThree(b, names, NotEquity, Closing(b));
    NamedOfThree(b, names, IsHead, Opening(b));
  }

  lemma OutOfThePair(o: BookData, b: BookData, stake: int, head: int, running: int, drawn: int, oa: set<int>,
      ba: set<int>)
    requires IsOwnersBook(o, stake, head, running) && IsBusinessBook(b, stake + running, drawn)
    requires (forall i :: i in oa <==> 1 <= i <= 3) && (forall i :: i in ba <==> i == 1)
    ensures PairAgrees(o, oa, b, ba) && CanClose(b.chart, [], Closing(b))
    ensures KeptInBusiness(b, ba, [], o, oa) == Result(b.chart, Closing(b)) - Takes(o, oa) <==> running == head + drawn
  {
    OwnersPairAgrees(o, b, stake, head, running, drawn, oa, ba);
    OwnersFigures(o, stake, head, running, oa);
    BusinessFigures(b, stake + running, drawn, ba);
    CostMethodIdentity(b, ba, o, oa);
  }

  /** Two books that pass every check and agree as a pair: the cost-method assertion fails by each of an income head
      that did not come in at nil, another account of the pair, and drawings left out of the pair. */
  lemma CostMethodIsOut(o: BookData, b: BookData, stake: int, head: int, running: int, drawn: int)
    requires o == Owner(stake, head, running) && b == Business(stake + running, drawn) && drawn <= stake + running
    ensures ValidBook(o) && ValidBook(b) && PairAgrees(o, PAIR_ACCOUNTS, b, {1}) && CanClose(b.chart, [], Closing(b))
    ensures KeptInBusiness(b, {1}, [], o, PAIR_ACCOUNTS) == Result(b.chart, Closing(b)) - Takes(o, PAIR_ACCOUNTS)
       <==> running == head + drawn
  {
    OwnerPasses(o, stake, head, running);
    BusinessPasses(b, stake + running, drawn);
    OutOfThePair(o, b, stake, head, running, drawn, PAIR_ACCOUNTS, {1});
  }

  /** A business whose first capital account, to which the result is closed, is another owner's. */
  function SharedBusiness(other: int, capital: int, income: int): BookData {
    BookData([Account(Cash, other + capital + income, false), Account(Capital, -other, false),
      Account(Capital, -capital, false),
              Account(Income, -income, false)], [])
  }

  lemma SharedBusinessPasses(b: BookData, other: int, capital: int, income: int)
    requires b == SharedBusiness(other, capital, income) && other + capital + income >= 0
    ensures ValidBook(b)
  {
    SumToFour(Opening(b));
    EmptyBookPasses(b, 0);
  }

  predicate IsSharedBusiness(b: BookData, capital: int, income: int) {
    && N(b) == 4 && b.vouchers == []
    && b.chart[0].kind.Cash? && b.chart[1].kind.Capital? && b.chart[2].kind.Capital? && b.chart[3].kind.Income?
    && b.chart[2].opening == -capital && b.chart[3].opening == -income
  }

  lemma NamedOfFour(b: BookData, names: set<int>, p: Kind -> bool, f: int -> int)
    requires N(b) == 4
    ensures NamedTotal(b, names, p, f)
         == NamedAt(b, names, p, f, 0) + NamedAt(b, names, p, f, 1) + NamedAt(b, names, p, f, 2)
           + NamedAt(b, names, p, f, 3)
  {
    SumToFour(Named(b, names, p, f));
  }

  lemma FirstCapitalOfFour(chart: seq<Account>)
    requires |chart| == 4 && !chart[0].kind.Capital? && chart[1].kind.Capital?
    ensures OwnerAccount(chart) == Some(1)
  {
    var isCapital := (a: Account) => a.kind.Capital?;
    assert FirstWhere(chart, isCapital, 1) == None;
    assert FirstWhere(chart, isCapital, 2) == Some(1);
    assert FirstWhere(chart, isCapital, 3) == Some(1);
  }

  lemma SharedFigures(b: BookData, capital: int, income: int, names: set<int>)
    requires IsSharedBusiness(b, capital, income) && forall i :: i in names <==> i == 2
    ensures OwnerAccount(b.chart) == Some(1) && !OwnerIsHeld(b, names)
    ensures Result(b.chart, Closing(b)) == income && KindTotal(b.chart, Closing(b), IsTakenHead) == 0
  {
    NoEntries(b, names, 0);
    FirstCapitalOfFour(b.chart);
    SumToFour(KindTerm(b.chart, Closing(b), IsIncome));
    SumToFour(KindTerm(b.chart, Closing(b), IsExpense));
    SumToFour(KindTerm(b.chart, Closing(b), IsTakenHead));
  }

  lemma {:induction false} SharedOpenings(b: BookData, capital: int, income: int, names: set<int>)
    requires IsSharedBusiness(b, capital, income) && forall i :: i in names <==> i == 2
    ensures NamedTotal(b, names, IsBs, Opening(b)) == -capital && HeadOpenings(b, names) == 0
    ensures NamedTotal(b, names, NotEquity, Closing(b)) == 0 && NamedTotal(b, names, IsTakenHead, Closing(b)) == 0
    ensures PairEntries(b, names, 4) == []
  {
    NoEntries(b, names, 4);
    NamedOfFour(b, names, IsBs, Opening(b));
    NamedOfFour(b, names, IsHead, Opening(b));
    NamedOfFour(b, names, NotEquity, Closing(b));
    NamedOfFour(b, names, IsTakenHead, Closing(b));
  }

  lemma ResultOutOfThePair(o: BookData, b: BookData, stake: int, income: int, oa: set<int>, ba: set<int>)
    requires IsOwnersBook(o, stake, 0, 0) && IsSharedBusiness(b, stake, income)
    requires (forall i :: i in oa <==> 1 <= i <= 3) && (forall i :: i in ba <==> i == 2)
    ensures PairAgrees(o, oa, b, ba) && CanClose(b.chart, [], Closing(b))
    ensures KeptInBusiness(b, ba, [], o, oa) == Result(b.chart, Closing(b)) - Takes(o, oa) <==> income == 0
  {
    OwnersOpenings(o, stake, 0, 0, oa);
    SharedOpenings(b, stake, income, ba);
    assert Mirror([]) == [];
    OwnersFigures(o, stake, 0, 0, oa);
    SharedFigures(b, stake, income, ba);
    CostMethodIdentity(b, ba, o, oa);
  }

  /** And by a result closed to an account outside the pair. */
  lemma ResultElsewhereIsOut(o: BookData, b: BookData, stake: int, other: int, income: int)
    requires o == Owner(stake, 0, 0) && b == SharedBusiness(other, stake, income) && other + stake + income >= 0
    ensures ValidBook(o) && ValidBook(b) && PairAgrees(o, PAIR_ACCOUNTS, b, {2}) && CanClose(b.chart, [], Closing(b))
    ensures KeptInBusiness(b, {2}, [], o, PAIR_ACCOUNTS) == Result(b.chart, Closing(b)) - Takes(o, PAIR_ACCOUNTS)
       <==> income == 0
  {
    OwnerPasses(o, stake, 0, 0);
    SharedBusinessPasses(b, other, stake, income);
    ResultOutOfThePair(o, b, stake, income, PAIR_ACCOUNTS, {2});
  }
}
