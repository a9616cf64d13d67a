/** The position on a date with its make-up, and the balance sheet: where each balance is placed, and when
    the two ways of stating own money agree. */
module Reports {
  import opened Totals
  import opened Ledger
  import opened YearClose

  // ------------------------------------------------------------------ own money and the result

  /** (own money at the start, put in so far, taken out so far) over every own-money account. */
  function EquityParts(b: BookData, date: int): (int, int, int) {
    (-KindTotal(b.chart, Opening(b), IsEquity),
     KindTotal(b.chart, CrMove(b, FY_START, date), IsEquity),
     KindTotal(b.chart, DrMove(b, FY_START, date), IsEquity))
  }

  function OwnStartPutTaken(b: BookData, date: int): int {
    var (start, put, taken) := EquityParts(b, date);
    start + put - taken
  }

  function SideInOf(b: BookData, start: int, end: int, dr: bool): int -> int {
    i => SideIn(b.vouchers, i, start, end, dr)
  }

  /** The three parts from the openings and the vouchers: what the own-money accounts opened with on the Cr side, what
      the year's vouchers so far credit to them, and what they debit. */
  lemma EquityPartsFromTheVouchers(b: BookData, date: int)
    ensures EquityParts(b, date).0 == -KindTotal(b.chart, Opening(b), IsEquity)
    ensures EquityParts(b, date).1 == KindTotal(b.chart, SideInOf(b, 1, date, false), IsEquity)
    ensures EquityParts(b, date).2 == KindTotal(b.chart, SideInOf(b, 1, date, true), IsEquity)
  {
    forall i | 0 <= i < N(b)
      ensures DrMove(b, 1, date)(i) == SideInOf(b, 1, date, true)(i)
      ensures CrMove(b, 1, date)(i) == SideInOf(b, 1, date, false)(i)
    {
      MovementIsVoucherLines(b, i, 1, date);
    }
    KindTotalEq(b.chart, DrMove(b, 1, date), SideInOf(b, 1, date, true), IsEquity);
    KindTotalEq(b.chart, CrMove(b, 1, date), SideInOf(b, 1, date, false), IsEquity);
  }

  lemma KindTotalEq(chart: seq<Account>, f: int -> int, g: int -> int, p: Kind -> bool)
    requires forall i :: 0 <= i < |chart| ==> f(i) == g(i)
    ensures KindTotal(chart, f, p) == KindTotal(chart, g, p)
  {
    SumToEq(KindTerm(chart, f, p), KindTerm(chart, g, p), |chart|);
  }

  /** Adding four columns of the chart: f = g + h - k, account by account and in total. */
  lemma KindTotalMix(chart: seq<Account>, f: int -> int, g: int -> int, h: int -> int, k: int -> int, p: Kind -> bool)
    requires forall i :: 0 <= i < |chart| ==> f(i) == g(i) + h(i) - k(i)
    ensures KindTotal(chart, f, p) == KindTotal(chart, g, p) + KindTotal(chart, h, p) - KindTotal(chart, k, p)
  {
    var gh := (i: int) => KindTerm(chart, g, p)(i) + KindTerm(chart, h, p)(i);
    SumToAdd(KindTerm(chart, g, p), KindTerm(chart, h, p), gh, |chart|);
    SumToAdd(KindTerm(chart, f, p), KindTerm(chart, k, p), gh, |chart|);
  }

  lemma BeforeTheYearIsOpening(b: BookData, i: int, date: int)
    requires 0 <= i < N(b) && InYear(b.vouchers) && date < FY_START
    ensures BalAt(b, date)(i) == Opening(b)(i)
  {
    BalAtIsDelta(b, i, date);
    NothingBefore(b.vouchers, i, date);
  }

  lemma {:induction false} NothingBefore(vs: seq<Voucher>, i: int, date: int)
    requires InYear(vs) && date < FY_START
    ensures DeltaUptoOf(vs, i, date) == 0
  {
    if vs != [] {
      NothingBefore(vs[..|vs| - 1], i, date);
    }
  }

  lemma {:induction false} NoDaysNoMovement(rows: seq<Row>, start: int, end: int)
    requires end < start
    ensures DrIn(rows, start, end) == CrIn(rows, start, end) == 0
  {
    if rows != [] {
      NoDaysNoMovement(rows[..|rows| - 1], start, end);
    }
  }

  /** What an account stood at, and what the year put on its two sides, is its balance. */
  lemma BalanceIsOpeningAndMovement(b: BookData, i: int, date: int)
    requires 0 <= i < N(b) && InYear(b.vouchers)
    ensures BalAt(b, date)(i) == Opening(b)(i) + DrMove(b, FY_START, date)(i) - CrMove(b, FY_START, date)(i)
  {
    if date < FY_START {
      BeforeTheYearIsOpening(b, i, date);
      NoDaysNoMovement(Rows(b, i), FY_START, date);
    } else {
      BeforeTheYearIsOpening(b, i, FY_START - 1);
      BalancePlusMovement(b.chart[i].opening, Rows(b, i), FY_START, date);
    }
  }

  /** Start + put in - taken out is what the own-money accounts stand at, on the Cr side. */
  lemma EquityPartsAreBalances(b: BookData, date: int)
    requires InYear(b.vouchers)
    ensures OwnStartPutTaken(b, date) == -KindTotal(b.chart, BalAt(b, date), IsEquity)
  {
    forall i | 0 <= i < N(b)
      ensures BalAt(b, date)(i) == Opening(b)(i) + DrMove(b, FY_START, date)(i) - CrMove(b, FY_START, date)(i)
    {
      BalanceIsOpeningAndMovement(b, i, date);
    }
    KindTotalMix(b.chart, BalAt(b, date), Opening(b), DrMove(b, FY_START, date), CrMove(b, FY_START, date), IsEquity);
  }

  /** A balance-sheet account that is not own money: it is placed in the position. */
  predicate IsPlaced(k: Kind) { IsBs(k) && !IsEquity(k) }

  /** Own money, kind by kind. */
  const OWN: set<Kind> := {Capital, Drawings, ShareOut, PartnerAc, PCapital, PCurrent}

  lemma PositionKinds(k: Kind)
    ensures IsEquity(k) <==> k in OWN
    ensures IsPlaced(k) <==> k !in OWN + {Income, Expense}
  {
  }

  predicate IsHead(k: Kind) { !IsBs(k) }

  predicate IsOwnSide(k: Kind) { IsEquity(k) || !IsBs(k) }

  lemma {:induction false} KindsMakeTheWhole(chart: seq<Account>, f: int -> int)
    ensures SumTo(f, |chart|) == KindTotal(chart, f, IsPlaced) + KindTotal(chart, f, IsEquity) - Result(chart, f)
  {
    KindTotalSplit(chart, f, IsIncome, IsExpense, IsHead);
    KindTotalSplit(chart, f, IsEquity, IsHead, IsOwnSide);
    KindTotalSplit(chart, f, IsPlaced, IsOwnSide, AnyKind);
    SumToEq(f, KindTerm(chart, f, AnyKind), |chart|);
  }

  /** In a balanced book, on every date: own money made up from its movements and the result so far is
      what the placed accounts come to. */
  lemma OwnMoneyIsPlaced(b: BookData, date: int)
    requires DoubleEntries(b) && OpeningsBalance(b) && InYear(b.vouchers)
    ensures OwnStartPutTaken(b, date) + Result(b.chart, BalAt(b, date)) == KindTotal(b.chart, BalAt(b, date), IsPlaced)
  {
    EquityPartsAreBalances(b, date);
    KindsMakeTheWhole(b.chart, BalAt(b, date));
    TrialBalanceAtEveryDate(b, date);
  }

  // ------------------------------------------------------------------ the position

  datatype Place = Have | Get | Give | FundPlace

  /** Where a balance stands in the position. */
  function PlaceOf(k: Kind, bal: int): Place {
    if IsHave(k) then (if bal >= 0 then Have else Give)
    else if k.Party? || k.Link? then (if bal > 0 then Get else Give)
    else if k.Fund? then FundPlace
    else if bal <= 0 then Give else Have
  }

  /** A row of the position: an account and its amount. */
  datatype PlacedRow = PlacedRow(acct: nat, amt: nat)

  /** The four groups of the report. */
  datatype Groups = Groups(have: seq<PlacedRow>, get: seq<PlacedRow>, give: seq<PlacedRow>, funds: seq<PlacedRow>)

  /** The rows of one part of the position, in chart order. */
  function PlaceRows(chart: seq<Account>, f: int -> int, pl: Place, n: nat): seq<PlacedRow>
    requires n <= |chart|
  {
    if n == 0 then []
    else
      var k, bal := chart[n - 1].kind, f(n - 1);
      if IsPlaced(k) && bal != 0 && PlaceOf(k, bal) == pl then
        PlaceRows(chart, f, pl, n - 1) + [PlacedRow(n - 1, Abs(bal))]
      else PlaceRows(chart, f, pl, n - 1)
  }

  function RowSum(rows: seq<PlacedRow>): nat {
    if rows == [] then 0 else RowSum(rows[..|rows| - 1]) + rows[|rows| - 1].amt
  }

  function PlaceAmt(k: Kind, bal: int, pl: Place): nat {
    if IsPlaced(k) && PlaceOf(k, bal) == pl then Abs(bal) else 0
  }

  function PlaceTerm(chart: seq<Account>, f: int -> int, pl: Place): int -> int {
    i => if 0 <= i < |chart| then PlaceAmt(chart[i].kind, f(i), pl) else 0
  }

  function PlaceTotal(chart: seq<Account>, f: int -> int, pl: Place): int {
    SumTo(PlaceTerm(chart, f, pl), |chart|)
  }

  lemma {:induction false} OneMoreRow(pre: seq<PlacedRow>, row: PlacedRow)
    ensures RowSum(pre + [row]) == RowSum(pre) + row.amt
  {
    assert (pre + [row])[..|pre|] == pre;
  }

  lemma NextRow(chart: seq<Account>, f: int -> int, pl: Place, n: nat)
    requires 0 < n <= |chart|
    ensures RowSum(PlaceRows(chart, f, pl, n))
         == RowSum(PlaceRows(chart, f, pl, n - 1)) + PlaceAmt(chart[n - 1].kind, f(n - 1), pl)
  {
    var pre, bal := PlaceRows(chart, f, pl, n - 1), f(n - 1);
    if PlaceAmt(chart[n - 1].kind, bal, pl) != 0 {
      OneMoreRow(pre, PlacedRow(n - 1, Abs(bal)));
    }
  }

  lemma {:induction false} RowsAddUp(chart: seq<Account>, f: int -> int, pl: Place, n: nat)
    requires n <= |chart|
    ensures RowSum(PlaceRows(chart, f, pl, n)) == SumTo(PlaceTerm(chart, f, pl), n)
  {
    if n > 0 {
      RowsAddUp(chart, f, pl, n - 1);
      NextRow(chart, f, pl, n);
    }
  }

  /** A fund on the Dr side: more spent from it than it held. */
  function OverspentTerm(chart: seq<Account>, f: int -> int): int -> int {
    i => if 0 <= i < |chart| && chart[i].kind.Fund? && f(i) > 0 then f(i) else 0
  }

  predicate NoFundOverspent(chart: seq<Account>, f: int -> int) {
    forall i :: 0 <= i < |chart| && chart[i].kind.Fund? ==> f(i) <= 0
  }

  lemma PlacedAmounts(k: Kind, bal: int)
    ensures PlaceAmt(k, bal, Have) + PlaceAmt(k, bal, Get) + 2 * (if k.Fund? && bal > 0 then bal else 0)
         == (if IsPlaced(k) then bal else 0) + PlaceAmt(k, bal, Give) + PlaceAmt(k, bal, FundPlace)
  {
  }

  /** One balance in the four groups. */
  lemma PlacedOnce(chart: seq<Account>, f: int -> int, i: int)
    ensures PlaceTerm(chart, f, Have)(i) + PlaceTerm(chart, f, Get)(i) + 2 * OverspentTerm(chart, f)(i)
         == KindTerm(chart, f, IsPlaced)(i) + PlaceTerm(chart, f, Give)(i) + PlaceTerm(chart, f, FundPlace)(i)
  {
    if 0 <= i < |chart| {
      PlacedAmounts(chart[i].kind, f(i));
    }
  }

  /** Have + get - give - funds, against the signed balances: an overspent fund is taken off twice. */
  lemma {:induction false} PositionAgainstBalances(chart: seq<Account>, f: int -> int)
    ensures PlaceTotal(chart, f, Have) + PlaceTotal(chart, f, Get) - PlaceTotal(chart, f, Give)
         - PlaceTotal(chart, f, FundPlace)
         == KindTotal(chart, f, IsPlaced) - 2 * SumTo(OverspentTerm(chart, f), |chart|)
  {
    forall i | 0 <= i < |chart| {
      PlacedOnce(chart, f, i);
    }
    ThreeAndThree(PlaceTerm(chart, f, Have), PlaceTerm(chart, f, Get), OverspentTerm(chart, f),
                  KindTerm(chart, f, IsPlaced), PlaceTerm(chart, f, Give), PlaceTerm(chart, f, FundPlace), |chart|);
  }

  lemma {:induction false} ThreeAndThree(a: int -> int, b: int -> int, c: int -> int,
                                         d: int -> int, e: int -> int, f: int -> int, n: nat)
    requires forall i :: 0 <= i < n ==> a(i) + b(i) + 2 * c(i) == d(i) + e(i) + f(i)
    ensures SumTo(a, n) + SumTo(b, n) + 2 * SumTo(c, n) == SumTo(d, n) + SumTo(e, n) + SumTo(f, n)
  {
    if n > 0 {
      ThreeAndThree(a, b, c, d, e, f, n - 1);
    }
  }

  /** The position of a book on a date, as the report totals it. */
  function PositionNet(b: BookData, date: int): int {
    var f := BalAt(b, date);
    PlaceTotal(b.chart, f, Have) + PlaceTotal(b.chart, f, Get) - PlaceTotal(b.chart, f, Give)
      - PlaceTotal(b.chart, f, FundPlace)
  }

  function MakeUp(b: BookData, date: int): int {
    OwnStartPutTaken(b, date) + Result(b.chart, BalAt(b, date))
  }

  /** On every date of every balanced book: the make-up equals the position if and only if no fund stands on
      the Dr side. */
  lemma PositionMakeUp(b: BookData, date: int)
    requires DoubleEntries(b) && OpeningsBalance(b) && InYear(b.vouchers)
    ensures MakeUp(b, date) == PositionNet(b, date) <==> NoFundOverspent(b.chart, BalAt(b, date))
  {
    OwnMoneyIsPlaced(b, date);
    PositionAgainstBalances(b.chart, BalAt(b, date));
    OverspentTotal(b.chart, BalAt(b, date));
  }

  lemma {:induction false} OverspentTotal(chart: seq<Account>, f: int -> int)
    ensures SumTo(OverspentTerm(chart, f), |chart|) == 0 <==> NoFundOverspent(chart, f)
  {
    SumToNonNeg(OverspentTerm(chart, f), |chart|);
    if i :| 0 <= i < |chart| && chart[i].kind.Fund? && f(i) > 0 {
      assert OverspentTerm(chart, f)(i) != 0;
    }
  }

  function Placed(chart: seq<Account>, f: int -> int): Groups {
    Groups(PlaceRows(chart, f, Have, |chart|), PlaceRows(chart, f, Get, |chart|),
           PlaceRows(chart, f, Give, |chart|), PlaceRows(chart, f, FundPlace, |chart|))
  }

  /** The row of an account stands in a group. */
  predicate Lists(rows: seq<PlacedRow>, f: int -> int, i: nat) {
    PlacedRow(i, Abs(f(i))) in rows
  }

  /** Rows in chart order, of placed accounts that stand off nil, each at its absolute amount. */
  predicate AreRows(chart: seq<Account>, f: int -> int, rows: seq<PlacedRow>) {
    && (forall j :: 0 <= j < |rows| ==>
          var i := rows[j].acct;
          i < |chart| && IsPlaced(chart[i].kind) && f(i) != 0 && rows[j].amt == Abs(f(i)))
    && (forall j, k :: 0 <= j < k < |rows| ==> rows[j].acct < rows[k].acct)
  }

  /** Where a balance that is not nil goes, by its kind and its sign: a debtor under what I will get, a fund under the
      funds, any other account under what I have when it is Dr and under what I will give when it is Cr. */
  predicate IsGrouped(chart: seq<Account>, f: int -> int, out: Groups, i: nat)
    requires i < |chart|
  {
    var debtor, fund := chart[i].kind in {Party, Link}, chart[i].kind == Fund;
    && (Lists(out.get, f, i) <==> debtor && f(i) > 0)
    && (Lists(out.funds, f, i) <==> fund)
    && (Lists(out.have, f, i) <==> !debtor && !fund && f(i) > 0)
    && (Lists(out.give, f, i) <==> !fund && f(i) < 0)
  }

  predicate Before(rows: seq<PlacedRow>, n: nat) {
    forall j :: 0 <= j < |rows| ==> rows[j].acct < n
  }

  /** The accounts before `n` that are placed at `pl`, and no others. */
  predicate ListsPlaced(chart: seq<Account>, f: int -> int, pl: Place, n: nat, rows: seq<PlacedRow>)
    requires n <= |chart|
  {
    && AreRows(chart, f, rows) && Before(rows, n)
    && forall i: nat :: i < n && IsPlaced(chart[i].kind) && f(i) != 0 ==>
         (Lists(rows, f, i) <==> PlaceOf(chart[i].kind, f(i)) == pl)
  }

  lemma {:induction false} PlaceRowsList(chart: seq<Account>, f: int -> int, pl: Place, n: nat)
    requires n <= |chart|
    ensures ListsPlaced(chart, f, pl, n, PlaceRows(chart, f, pl, n))
  {
    if n > 0 {
      PlaceRowsList(chart, f, pl, n - 1);
      OneRowMore(chart, f, pl, n, PlaceRows(chart, f, pl, n - 1), PlaceRows(chart, f, pl, n));
    }
  }

  lemma {:induction false} RowsStayInOrder(chart: seq<Account>, f: int -> int, pre: seq<PlacedRow>, n: nat)
    requires n < |chart| && AreRows(chart, f, pre) && Before(pre, n) && IsPlaced(chart[n].kind) && f(n) != 0
    ensures var rows := pre + [PlacedRow(n, Abs(f(n)))]; AreRows(chart, f, rows) && Before(rows, n + 1)
  {
  }

  lemma {:induction false} ListsOneMore(pre: seq<PlacedRow>, f: int -> int, n: nat, i: nat)
    requires Before(pre, n)
    ensures Lists(pre + [PlacedRow(n, Abs(f(n)))], f, i) <==> Lists(pre, f, i) || i == n
    ensures !Lists(pre, f, n)
  {
  }

  lemma {:induction false} OneRowMore(chart: seq<Account>, f: int -> int, pl: Place, n: nat, pre: seq<PlacedRow>,
      rows: seq<PlacedRow>)
    requires 0 < n <= |chart| && ListsPlaced(chart, f, pl, n - 1, pre)
    requires rows == if IsPlaced(chart[n - 1].kind) && f(n - 1) != 0 && PlaceOf(chart[n - 1].kind, f(n - 1)) == pl
                     then pre + [PlacedRow(n - 1, Abs(f(n - 1)))] else pre
    ensures ListsPlaced(chart, f, pl, n, rows)
  {
    ListsOneMore(pre, f, n - 1, n - 1);
    if rows != pre {
      RowsStayInOrder(chart, f, pre, n - 1);
      forall i: nat ensures Lists(rows, f, i) <==> Lists(pre, f, i) || i == n - 1 {
        ListsOneMore(pre, f, n - 1, i);
      }
    }
  }

  lemma PlacedAreGrouped(chart: seq<Account>, f: int -> int, out: Groups)
    requires out == Placed(chart, f)
    ensures forall i: nat :: i < |chart| && chart[i].kind !in OWN + {Income, Expense} && f(i) != 0 ==>
      IsGrouped(chart, f, out, i)
    ensures AreRows(chart, f, out.have) && AreRows(chart, f, out.get)
    ensures AreRows(chart, f, out.give) && AreRows(chart, f, out.funds)
  {
    PlaceRowsList(chart, f, Have, |chart|);
    PlaceRowsList(chart, f, Get, |chart|);
    PlaceRowsList(chart, f, Give, |chart|);
    PlaceRowsList(chart, f, FundPlace, |chart|);
    forall i: nat | i < |chart| ensures IsPlaced(chart[i].kind) <==> chart[i].kind !in OWN + {Income, Expense} {
      PositionKinds(chart[i].kind);
    }
  }

  /** The groups of the report, filled in one pass over the chart: every placed balance in its one group, by kind and
      sign, and nothing else in any. */
  method PlaceBalances(chart: seq<Account>, f: int -> int) returns (out: Groups)
    ensures out == Placed(chart, f)
    ensures forall i: nat :: i < |chart| && chart[i].kind !in OWN + {Income, Expense} && f(i) != 0 ==>
      IsGrouped(chart, f, out, i)
    ensures AreRows(chart, f, out.have) && AreRows(chart, f, out.get)
    ensures AreRows(chart, f, out.give) && AreRows(chart, f, out.funds)
  {
    var have, get, give, funds := [], [], [], [];
    for n := 0 to |chart|
      invariant have == PlaceRows(chart, f, Have, n) && get == PlaceRows(chart, f, Get, n)
      invariant give == PlaceRows(chart, f, Give, n) && funds == PlaceRows(chart, f, FundPlace, n)
    {
      var k, bal := chart[n].kind, f(n);
      if IsPlaced(k) && bal != 0 {
        match PlaceOf(k, bal)
        case Have => have := have + [PlacedRow(n, Abs(bal))];
        case Get => get := get + [PlacedRow(n, Abs(bal))];
        case Give => give := give + [PlacedRow(n, Abs(bal))];
        case FundPlace => funds := funds + [PlacedRow(n, Abs(bal))];
      }
    }
    out := Groups(have, get, give, funds);
    PlacedAreGrouped(chart, f, out);
  }

  /** The report; its last check, that the make-up is the position, passes exactly when no fund is overspent. */
  method PositionTable(b: BookData, date: int) returns (net: int, agrees: bool)
    requires DoubleEntries(b) && OpeningsBalance(b) && InYear(b.vouchers)
    ensures net == PositionNet(b, date)
    ensures agrees <==> NoFundOverspent(b.chart, BalAt(b, date))
  {
    var f, n := BalAt(b, date), N(b);
    var rows := PlaceBalances(b.chart, f);
    net := RowSum(rows.have) + RowSum(rows.get) - RowSum(rows.give) - RowSum(rows.funds);
    agrees := MakeUp(b, date) == net;
    RowsAddUp(b.chart, f, Have, n);
    RowsAddUp(b.chart, f, Get, n);
    RowsAddUp(b.chart, f, Give, n);
    RowsAddUp(b.chart, f, FundPlace, n);
    PositionMakeUp(b, date);
  }
}
