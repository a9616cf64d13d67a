/** What a voucher of each type may look like, by kinds of account and sides: the checks of `validate_vouchers` read as
    a table. */
module VoucherRules {
  import opened Totals
  import opened Lines
  import opened Options
  import opened Ledger

  // ------------------------------------------------------------------ what may stand where

  const MONEY: set<Kind> := {Cash, Gollak, Bank, Wallet, Card, KccLoan}

  /** The kinds of account that may stand on each side of each type of voucher. A collection box gives only to a contra
      and takes only by a receipt. */
  predicate MayStand(vtype: VType, dr: bool, k: Kind) {
    match vtype
    case Receipt => if dr then k in MONEY else k != Gollak
    case Payment => if dr then k !in MONEY else k in MONEY + {Advance, Loan} && k != Gollak
    case Contra => k in MONEY + {Invest} && (dr ==> k != Gollak)
    case PaymentFromFund => (if dr then k in {Fund, Expense, Fixed} else k in MONEY + {Income}) && k != Gollak
    case Journal => k !in MONEY
  }

  /** When a collection box stands in it, every line of the other side is: of a contra, cash or bank; of a receipt,
      income. */
  predicate BoxAgainst(chart: seq<Account>, v: Voucher)
    requires InChart(v.lines, |chart|)
  {
    forall j, m :: 0 <= j < |v.lines| && 0 <= m < |v.lines| && KindOf(chart, v.lines[j]) == Gollak ==>
      (v.lines[j].amt < 0 < v.lines[m].amt ==> KindOf(chart, v.lines[m]) in {Cash, Bank})
      && (v.lines[m].amt < 0 < v.lines[j].amt ==> KindOf(chart, v.lines[m]) == Income)
  }

  predicate LinesMayStand(chart: seq<Account>, v: Voucher)
    requires InChart(v.lines, |chart|)
  {
    forall j :: 0 <= j < |v.lines| ==> MayStand(v.vtype, v.lines[j].amt > 0, KindOf(chart, v.lines[j]))
  }

  predicate HoldsMoney(chart: seq<Account>, ls: seq<Line>)
    requires InChart(ls, |chart|)
  {
    exists j :: 0 <= j < |ls| && KindOf(chart, ls[j]) in MONEY
  }

  lemma MoneyByKind(k: Kind)
    ensures IsMoney(k) <==> k in MONEY
  {
  }

  lemma HoldsMoneyByKind(chart: seq<Account>, ls: seq<Line>)
    requires InChart(ls, |chart|)
    ensures HasMoney(chart, ls) <==> HoldsMoney(chart, ls)
  {
    forall j | 0 <= j < |ls| ensures IsMoney(KindOf(chart, ls[j])) <==> KindOf(chart, ls[j]) in MONEY {
      MoneyByKind(KindOf(chart, ls[j]));
    }
  }

  /** The rule of one line, taken alone. */
  predicate LineRule(vtype: VType, dr: bool, k: Kind) {
    && (match vtype
        case Contra => IsMoney(k) || k.Invest?
        case PaymentFromFund => if dr then k.Fund? || k.Expense? || k.Fixed? else IsMoney(k) || k.Income?
        case Receipt => dr ==> IsMoney(k)
        case Payment => if dr then !IsMoney(k) else IsMoney(k) || k.Advance? || k.Loan?
        case Journal => !IsMoney(k))
    && (k.Gollak? ==> if dr then vtype.Receipt? else vtype.Contra?)
  }

  lemma LineRuleByKind(vtype: VType, dr: bool, k: Kind)
    ensures LineRule(vtype, dr, k) <==> MayStand(vtype, dr, k)
  {
    MoneyByKind(k);
  }

  predicate LinesKeepRule(chart: seq<Account>, v: Voucher)
    requires InChart(v.lines, |chart|)
  {
    forall j :: 0 <= j < |v.lines| ==> LineRule(v.vtype, v.lines[j].amt > 0, KindOf(chart, v.lines[j]))
  }

  lemma LinesByKind(chart: seq<Account>, v: Voucher)
    requires InChart(v.lines, |chart|)
    ensures LinesKeepRule(chart, v) <==> LinesMayStand(chart, v)
  {
    forall j | 0 <= j < |v.lines|
      ensures LineRule(v.vtype, v.lines[j].amt > 0, KindOf(chart, v.lines[j]))
         <==> MayStand(v.vtype, v.lines[j].amt > 0, KindOf(chart, v.lines[j]))
    {
      LineRuleByKind(v.vtype, v.lines[j].amt > 0, KindOf(chart, v.lines[j]));
    }
  }

  lemma VouchersByRule(chart: seq<Account>, v: Voucher)
    requires DoubleEntry(chart, v.lines)
    ensures ValidVoucher(chart, v) <==>
      && LinesKeepRule(chart, v) && BoxAgainst(chart, v)
      && (v.vtype.Journal? || HasMoney(chart, v.lines))
      && (v.vtype.Contra? ==> |v.lines| == 2)
      && (v.vtype.PaymentFromFund? ==> FundShape(chart, v.lines))
  {
  }

  // ------------------------------------------------------------------ the fund payment

  lemma {:induction false} OneMoreLine(chart: seq<Account>, ls: seq<Line>, l: Line, p: Kind -> bool, dr: bool)
    requires InChart(ls, |chart|) && l.acct < |chart|
    ensures Net(ls + [l]) == Net(ls) + l.amt
    ensures SideSum(chart, ls + [l], p, dr) == SideSum(chart, ls, p, dr) + SideAmt(chart, l, p, dr)
    ensures SideCount(chart, ls + [l], p, dr) == SideCount(chart, ls, p, dr) + SideOne(chart, l, p, dr)
  {
    assert (ls + [l])[..|ls|] == ls;
  }

  /** What one line adds to the sums and counts a voucher is checked by. */
  function SideAmt(chart: seq<Account>, l: Line, p: Kind -> bool, dr: bool): nat {
    if l.acct < |chart| && OnSide(chart, l, p, dr) then Abs(l.amt) else 0
  }

  function SideOne(chart: seq<Account>, l: Line, p: Kind -> bool, dr: bool): nat {
    if l.acct < |chart| && OnSide(chart, l, p, dr) then 1 else 0
  }

  lemma {:induction false} TwoLineSums(chart: seq<Account>, a: Line, b: Line, p: Kind -> bool, dr: bool)
    requires a.acct < |chart| && b.acct < |chart|
    ensures InChart([a, b], |chart|) && Net([a, b]) == a.amt + b.amt
    ensures SideSum(chart, [a, b], p, dr) == SideAmt(chart, a, p, dr) + SideAmt(chart, b, p, dr)
    ensures SideCount(chart, [a, b], p, dr) == SideOne(chart, a, p, dr) + SideOne(chart, b, p, dr)
  {
    OneMoreLine(chart, [], a, p, dr);
    OneMoreLine(chart, [a], b, p, dr);
    assert [] + [a] == [a] && [a] + [b] == [a, b];
  }

  /** The sums and counts a fund payment is checked by, line by line. */
  lemma {:induction false} FourLineSums(chart: seq<Account>, a: Line, b: Line, c: Line, d: Line, p: Kind -> bool,
      dr: bool)
    requires InChart([a, b, c, d], |chart|)
    ensures Net([a, b, c, d]) == a.amt + b.amt + c.amt + d.amt
    ensures SideSum(chart, [a, b, c, d], p, dr)
         == SideAmt(chart, a, p, dr) + SideAmt(chart, b, p, dr) + SideAmt(chart, c, p, dr) + SideAmt(chart, d, p, dr)
    ensures SideCount(chart, [a, b, c, d], p, dr)
         == SideOne(chart, a, p, dr) + SideOne(chart, b, p, dr) + SideOne(chart, c, p, dr) + SideOne(chart, d, p, dr)
  {
    var ls := [a, b, c, d];
    assert a == ls[0] && b == ls[1] && c == ls[2] && d == ls[3];
    TwoLineSums(chart, a, b, p, dr);
    var ab := [a, b];
    OneMoreLine(chart, ab, c, p, dr);
    OneMoreLine(chart, ab + [c], d, p, dr);
    assert ab + [c] + [d] == ls;
  }

  /** The four parts of a fund payment. */
  datatype FundPart = FromFund | ToIncome | Cost | Money

  function PartOf(k: Kind): Option<FundPart> {
    if k in MONEY then Some(Money)
    else if k == Fund then Some(FromFund)
    else if k == Income then Some(ToIncome)
    else if k in {Expense, Fixed} then Some(Cost)
    else None
  }

  predicate IsPartAmount(part: Option<FundPart>, amt: int, x: nat) {
    part.Some? && amt == if part.value.FromFund? || part.value.Cost? then x else 0 - x
  }

  /** A line as a part and an amount. */
  datatype PartLine = PartLine(part: Option<FundPart>, amt: int)

  function One(l: PartLine, part: FundPart): nat {
    if l.part == Some(part) && (if part.FromFund? || part.Cost? then l.amt > 0 else l.amt < 0) then 1 else 0
  }

  function Amount(l: PartLine, part: FundPart): nat {
    if One(l, part) == 1 then Abs(l.amt) else 0
  }

  /** A debit is from the fund or a cost, a credit is money or to income. */
  predicate OnItsSide(l: PartLine) {
    l.part.Some? && l.amt != 0 && (if l.part.value.FromFund? || l.part.value.Cost? then l.amt > 0 else l.amt < 0)
  }

  predicate HasShape(a: PartLine, b: PartLine, c: PartLine, d: PartLine) {
    && OnItsSide(a) && OnItsSide(b) && OnItsSide(c) && OnItsSide(d) && a.amt + b.amt + c.amt + d.amt == 0
    && One(a, FromFund) + One(b, FromFund) + One(c, FromFund) + One(d, FromFund) == 1
    && One(a, ToIncome) + One(b, ToIncome) + One(c, ToIncome) + One(d, ToIncome) == 1
    && (a.part == Some(Money) || b.part == Some(Money) || c.part == Some(Money) || d.part == Some(Money))
    && Amount(a, FromFund) + Amount(b, FromFund) + Amount(c, FromFund) + Amount(d, FromFund)
       == Amount(a, ToIncome) + Amount(b, ToIncome) + Amount(c, ToIncome) + Amount(d, ToIncome)
       == Amount(a, Money) + Amount(b, Money) + Amount(c, Money) + Amount(d, Money)
  }

  function Is(l: PartLine, part: FundPart): nat {
    if l.part == Some(part) then 1 else 0
  }

  /** One line of each part and one amount: fund and cost debited with it, income and money credited. */
  predicate IsFourParts(a: PartLine, b: PartLine, c: PartLine, d: PartLine, x: nat) {
    && x > 0
    && IsPartAmount(a.part, a.amt, x) && IsPartAmount(b.part, b.amt, x)
    && IsPartAmount(c.part, c.amt, x) && IsPartAmount(d.part, d.amt, x)
    && forall part: FundPart :: Is(a, part) + Is(b, part) + Is(c, part) + Is(d, part) == 1
  }

  lemma AmountOfPart(l: PartLine, part: FundPart)
    requires OnItsSide(l)
    ensures Amount(l, part) == if Is(l, part) == 1 then Abs(l.amt) else 0
    ensures One(l, part) == Is(l, part)
    ensures Is(l, FromFund) + Is(l, ToIncome) + Is(l, Cost) + Is(l, Money) == 1
    ensures l.amt == Amount(l, FromFund) + Amount(l, Cost) - Amount(l, ToIncome) - Amount(l, Money)
  {
  }

  lemma OneOfAPart(a: PartLine, b: PartLine, c: PartLine, d: PartLine, part: FundPart)
    requires OnItsSide(a) && OnItsSide(b) && OnItsSide(c) && OnItsSide(d)
    ensures var n := Is(a, part) + Is(b, part) + Is(c, part) + Is(d, part);
      var x := Amount(a, part) + Amount(b, part) + Amount(c, part) + Amount(d, part);
      && One(a, part) + One(b, part) + One(c, part) + One(d, part) == n && (x > 0 <==> n > 0)
      && (n == 1 ==>
            && (a.part == Some(part) ==> IsPartAmount(a.part, a.amt, x))
            && (b.part == Some(part) ==> IsPartAmount(b.part, b.amt, x))
            && (c.part == Some(part) ==> IsPartAmount(c.part, c.amt, x))
            && (d.part == Some(part) ==> IsPartAmount(d.part, d.amt, x)))
  {
    AmountOfPart(a, part);
    AmountOfPart(b, part);
    AmountOfPart(c, part);
    AmountOfPart(d, part);
  }

  function IsAll(a: PartLine, b: PartLine, c: PartLine, d: PartLine, part: FundPart): nat {
    Is(a, part) + Is(b, part) + Is(c, part) + Is(d, part)
  }

  function AmountAll(a: PartLine, b: PartLine, c: PartLine, d: PartLine, part: FundPart): nat {
    Amount(a, part) + Amount(b, part) + Amount(c, part) + Amount(d, part)
  }

  /** Four lines that net to nil: the cost is what is left of the four parts. */
  lemma CostIsTheRest(a: PartLine, b: PartLine, c: PartLine, d: PartLine)
    requires OnItsSide(a) && OnItsSide(b) && OnItsSide(c) && OnItsSide(d) && a.amt + b.amt + c.amt + d.amt == 0
    ensures AmountAll(a, b, c, d, FromFund) + AmountAll(a, b, c, d, Cost)
         == AmountAll(a, b, c, d, ToIncome) + AmountAll(a, b, c, d, Money)
    ensures IsAll(a, b, c, d, FromFund) + IsAll(a, b, c, d, Cost)
            + IsAll(a, b, c, d, ToIncome) + IsAll(a, b, c, d, Money) == 4
  {
    AmountOfPart(a, Cost);
    AmountOfPart(b, Cost);
    AmountOfPart(c, Cost);
    AmountOfPart(d, Cost);
  }

  lemma ShapeHasFourParts(a: PartLine, b: PartLine, c: PartLine, d: PartLine)
    requires HasShape(a, b, c, d)
    ensures IsFourParts(a, b, c, d, AmountAll(a, b, c, d, Money))
  {
    CostIsTheRest(a, b, c, d);
    OneOfAPart(a, b, c, d, FromFund);
    OneOfAPart(a, b, c, d, ToIncome);
    OneOfAPart(a, b, c, d, Cost);
    OneOfAPart(a, b, c, d, Money);
    var x := AmountAll(a, b, c, d, Money);
    assert AmountAll(a, b, c, d, Cost) == x && AmountAll(a, b, c, d, FromFund) == x;
    EachPartOnce(a, b, c, d);
  }

  lemma EachPartOnce(a: PartLine, b: PartLine, c: PartLine, d: PartLine)
    requires IsAll(a, b, c, d, FromFund) == 1 && IsAll(a, b, c, d, ToIncome) == 1
    requires IsAll(a, b, c, d, Cost) == 1 && IsAll(a, b, c, d, Money) == 1
    ensures forall part: FundPart :: Is(a, part) + Is(b, part) + Is(c, part) + Is(d, part) == 1
  {
    forall part: FundPart ensures Is(a, part) + Is(b, part) + Is(c, part) + Is(d, part) == 1 {
      match part
      case FromFund =>
      case ToIncome =>
      case Cost =>
      case Money =>
    }
  }

  lemma PartIsOnItsSide(l: PartLine, x: nat)
    requires x > 0 && IsPartAmount(l.part, l.amt, x)
    ensures OnItsSide(l)
  {
  }

  lemma FourPartsNetToNil(a: PartLine, b: PartLine, c: PartLine, d: PartLine, x: nat)
    requires IsFourParts(a, b, c, d, x)
    ensures OnItsSide(a) && OnItsSide(b) && OnItsSide(c) && OnItsSide(d) && a.amt + b.amt + c.amt + d.amt == 0
    ensures AmountAll(a, b, c, d, FromFund) == AmountAll(a, b, c, d, ToIncome) == AmountAll(a, b, c, d, Money) == x
  {
    PartIsOnItsSide(a, x);
    PartIsOnItsSide(b, x);
    PartIsOnItsSide(c, x);
    PartIsOnItsSide(d, x);
    AmountIsTheOne(a, b, c, d, FromFund, x);
    AmountIsTheOne(a, b, c, d, ToIncome, x);
    AmountIsTheOne(a, b, c, d, Cost, x);
    AmountIsTheOne(a, b, c, d, Money, x);
    AmountOfPart(a, Cost);
    AmountOfPart(b, Cost);
    AmountOfPart(c, Cost);
    AmountOfPart(d, Cost);
  }

  lemma FourPartsHaveShape(a: PartLine, b: PartLine, c: PartLine, d: PartLine, x: nat)
    requires IsFourParts(a, b, c, d, x)
    ensures HasShape(a, b, c, d)
  {
    FourPartsNetToNil(a, b, c, d, x);
    OneOfAPart(a, b, c, d, FromFund);
    OneOfAPart(a, b, c, d, ToIncome);
    assert IsAll(a, b, c, d, FromFund) == 1 && IsAll(a, b, c, d, ToIncome) == 1 && IsAll(a, b, c, d, Money) == 1;
  }

  /** Four lines that net to nil have the shape exactly when they are one of each part, all of one amount. */
  lemma ShapeIsFourParts(a: PartLine, b: PartLine, c: PartLine, d: PartLine)
    requires a.amt + b.amt + c.amt + d.amt == 0
    ensures HasShape(a, b, c, d) <==> IsFourParts(a, b, c, d, Abs(a.amt))
  {
    if HasShape(a, b, c, d) {
      ShapeHasFourParts(a, b, c, d);
      assert Abs(a.amt) == AmountAll(a, b, c, d, Money);
    }
    if IsFourParts(a, b, c, d, Abs(a.amt)) {
      FourPartsHaveShape(a, b, c, d, Abs(a.amt));
    }
  }

  lemma AmountIsX(l: PartLine, part: FundPart, x: nat)
    requires x > 0 && IsPartAmount(l.part, l.amt, x)
    ensures Amount(l, part) == if Is(l, part) == 1 then x else 0
  {
    AmountOfPart(l, part);
  }

  lemma AmountIsTheOne(a: PartLine, b: PartLine, c: PartLine, d: PartLine, part: FundPart, x: nat)
    requires x > 0 && IsAll(a, b, c, d, part) == 1
    requires IsPartAmount(a.part, a.amt, x) && IsPartAmount(b.part, b.amt, x)
    requires IsPartAmount(c.part, c.amt, x) && IsPartAmount(d.part, d.amt, x)
    ensures AmountAll(a, b, c, d, part) == x
  {
    AmountIsX(a, part, x);
    AmountIsX(b, part, x);
    AmountIsX(c, part, x);
    AmountIsX(d, part, x);
  }

  function PartLineOf(chart: seq<Account>, l: Line): PartLine
    requires l.acct < |chart|
  {
    PartLine(PartOf(KindOf(chart, l)), l.amt)
  }

  /** Four lines, one of each part, all of one amount. */
  predicate IsFundPayment(chart: seq<Account>, ls: seq<Line>)
    requires InChart(ls, |chart|)
  {
    && |ls| == 4
    && IsFourParts(PartLineOf(chart, ls[0]), PartLineOf(chart, ls[1]), PartLineOf(chart, ls[2]),
                   PartLineOf(chart, ls[3]), Abs(ls[0].amt))
  }

  /** What the shape asks of one line. */
  predicate FundLineRule(chart: seq<Account>, l: Line)
    requires l.acct < |chart|
  {
    var k := KindOf(chart, l);
    && (l.amt > 0 ==> k.Fund? || k.Expense? || k.Fixed?)
    && (l.amt < 0 ==> IsMoney(k) || k.Income?)
  }

  /** What it asks of one line, and what the line adds to its sums, is what it asks of the part. */
  lemma FundLine(chart: seq<Account>, l: Line)
    requires l.acct < |chart| && l.amt != 0
    ensures var p := PartLineOf(chart, l);
      && (FundLineRule(chart, l) <==> OnItsSide(p))
      && SideOne(chart, l, IsFund, true) == One(p, FromFund) && SideOne(chart, l, IsIncome, false) == One(p, ToIncome)
      && SideAmt(chart, l, IsFund, true) == Amount(p, FromFund)
      && SideAmt(chart, l, IsIncome, false) == Amount(p, ToIncome)
      && SideAmt(chart, l, IsMoney, false) == Amount(p, Money)
      && (IsMoney(KindOf(chart, l)) <==> p.part == Some(Money))
  {
    MoneyByKind(KindOf(chart, l));
  }

  /** The shape of four lines, by their sums. */
  lemma ShapeBySums(chart: seq<Account>, ls: seq<Line>)
    requires InChart(ls, |chart|) && |ls| == 4
    ensures FundShape(chart, ls) <==>
      && SideCount(chart, ls, IsFund, true) == 1 && SideCount(chart, ls, IsIncome, false) == 1
      && (IsMoney(KindOf(chart, ls[0])) || IsMoney(KindOf(chart, ls[1])) || IsMoney(KindOf(chart, ls[2]))
          || IsMoney(KindOf(chart, ls[3])))
      && FundLineRule(chart, ls[0]) && FundLineRule(chart, ls[1])
      && FundLineRule(chart, ls[2]) && FundLineRule(chart, ls[3])
      && SideSum(chart, ls, IsFund, true) == SideSum(chart, ls, IsIncome, false) == SideSum(chart, ls, IsMoney, false)
  {
    if FundShape(chart, ls) {
      forall j | 0 <= j < 4 ensures FundLineRule(chart, ls[j]) {
      }
    }
  }

  lemma ShapeLineByLine(chart: seq<Account>, ls: seq<Line>, a: PartLine, b: PartLine, c: PartLine, d: PartLine)
    requires DoubleEntry(chart, ls) && |ls| == 4
    requires a == PartLineOf(chart, ls[0]) && b == PartLineOf(chart, ls[1])
    requires c == PartLineOf(chart, ls[2]) && d == PartLineOf(chart, ls[3])
    ensures FundShape(chart, ls) <==> HasShape(a, b, c, d)
    ensures a.amt + b.amt + c.amt + d.amt == 0
  {
    FourOf(chart, ls, IsFund, true);
    FourOf(chart, ls, IsIncome, false);
    FourOf(chart, ls, IsMoney, false);
    FundLine(chart, ls[0]);
    FundLine(chart, ls[1]);
    FundLine(chart, ls[2]);
    FundLine(chart, ls[3]);
    ShapeBySums(chart, ls);
  }

  lemma FourOf(chart: seq<Account>, ls: seq<Line>, p: Kind -> bool, dr: bool)
    requires InChart(ls, |chart|) && |ls| == 4
    ensures Net(ls) == ls[0].amt + ls[1].amt + ls[2].amt + ls[3].amt
    ensures SideSum(chart, ls, p, dr)
         == SideAmt(chart, ls[0], p, dr) + SideAmt(chart, ls[1], p, dr) + SideAmt(chart, ls[2], p, dr)
            + SideAmt(chart, ls[3], p, dr)
    ensures SideCount(chart, ls, p, dr)
         == SideOne(chart, ls[0], p, dr) + SideOne(chart, ls[1], p, dr) + SideOne(chart, ls[2], p, dr)
            + SideOne(chart, ls[3], p, dr)
  {
    assert ls == [ls[0], ls[1], ls[2], ls[3]];
    FourLineSums(chart, ls[0], ls[1], ls[2], ls[3], p, dr);
  }

  /** The fund payment's shape, in one sentence: four lines of one amount, the fund and a cost debited, income and money
      credited. */
  lemma FundShapeByParts(chart: seq<Account>, ls: seq<Line>)
    requires DoubleEntry(chart, ls)
    ensures FundShape(chart, ls) <==> IsFundPayment(chart, ls)
  {
    if |ls| == 4 {
      var a, b := PartLineOf(chart, ls[0]), PartLineOf(chart, ls[1]);
      var c, d := PartLineOf(chart, ls[2]), PartLineOf(chart, ls[3]);
      ShapeLineByLine(chart, ls, a, b, c, d);
      ShapeIsFourParts(a, b, c, d);
    }
  }

  /** A double entry on different accounts, every line on an account that may stand there; money stands in it unless it
      is a journal; a contra has two lines, and a fund payment one line of each part. */
  predicate IsAllowed(chart: seq<Account>, v: Voucher) {
    && |v.lines| >= 2 && Net(v.lines) == 0
    && (forall j :: 0 <= j < |v.lines| ==> v.lines[j].acct < |chart| && v.lines[j].amt != 0)
    && (forall j, k :: 0 <= j < k < |v.lines| ==> v.lines[j].acct != v.lines[k].acct)
    && LinesMayStand(chart, v) && BoxAgainst(chart, v)
    && (v.vtype == Journal || HoldsMoney(chart, v.lines))
    && (v.vtype == Contra ==> |v.lines| == 2)
    && (v.vtype == PaymentFromFund ==> IsFundPayment(chart, v.lines))
  }

  lemma DoubleEntryIs(chart: seq<Account>, ls: seq<Line>)
    ensures DoubleEntry(chart, ls) <==>
      && |ls| >= 2 && Net(ls) == 0
      && (forall j :: 0 <= j < |ls| ==> ls[j].acct < |chart| && ls[j].amt != 0)
      && (forall j, k :: 0 <= j < k < |ls| ==> ls[j].acct != ls[k].acct)
  {
  }

  /** The checks let a voucher pass exactly when it is allowed by kinds and sides. */
  lemma VouchersByKind(chart: seq<Account>, v: Voucher)
    ensures ValidVoucher(chart, v) <==> IsAllowed(chart, v)
  {
    DoubleEntryIs(chart, v.lines);
    if DoubleEntry(chart, v.lines) {
      FundShapeByParts(chart, v.lines);
      VouchersByRule(chart, v);
      LinesByKind(chart, v);
      HoldsMoneyByKind(chart, v.lines);
    }
  }
}
