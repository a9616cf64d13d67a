/** The balance sheet at the year end: level for every balanced book, funds kept with their sign, partners who
    owe the firm moved to what it has. */
module BalanceSheet {
  import opened Amounts
  import opened Options
  import opened Totals
  import opened Ledger
  import opened Sharing
  import opened YearClose
  import opened Reports
  import opened CloseExact

  predicate OnAssetSide(k: Kind, bal: int) {
    PlaceOf(k, bal).Have? || PlaceOf(k, bal).Get?
  }

  function AssetTerm(chart: seq<Account>, f: int -> int): int -> int {
    i => if 0 <= i < |chart| && IsPlaced(chart[i].kind) && OnAssetSide(chart[i].kind, f(i)) then Abs(f(i)) else 0
  }

  function LiabilityTerm(chart: seq<Account>, f: int -> int): int -> int {
    i => if 0 <= i < |chart| && IsPlaced(chart[i].kind) && !OnAssetSide(chart[i].kind, f(i)) then -f(i) else 0
  }

  /** Assets less liabilities and funds, as the sheet places them, are the signed balances: for every chart and
      every set of balances, an overspent fund among them. */
  lemma {:induction false} SheetAgainstBalances(chart: seq<Account>, f: int -> int)
    ensures SumTo(AssetTerm(chart, f), |chart|) - SumTo(LiabilityTerm(chart, f), |chart|)
         == KindTotal(chart, f, IsPlaced)
  {
    forall i | 0 <= i < |chart|
      ensures AssetTerm(chart, f)(i) == KindTerm(chart, f, IsPlaced)(i) + LiabilityTerm(chart, f)(i)
    {
      var k, bal := chart[i].kind, f(i);
      assert IsPlaced(k) && OnAssetSide(k, bal) ==> bal >= 0;
    }
    SumToAdd(KindTerm(chart, f, IsPlaced), LiabilityTerm(chart, f), AssetTerm(chart, f), |chart|);
  }

  /** Which side a balance is put on, by kind and sign: a debit that is no fund is an asset; anything else placed, an
      overspent fund too, is kept with its sign among the liabilities. */
  lemma SheetSides(chart: seq<Account>, f: int -> int, i: nat)
    requires i < |chart| && IsPlaced(chart[i].kind)
    ensures AssetTerm(chart, f)(i) == if chart[i].kind != Fund && f(i) > 0 then f(i) else 0
    ensures LiabilityTerm(chart, f)(i) == if chart[i].kind == Fund || f(i) < 0 then -f(i) else 0
  {
    var k := chart[i].kind;
    assert OnAssetSide(k, f(i)) ==> k != Fund && f(i) >= 0;
    assert !OnAssetSide(k, f(i)) ==> k == Fund || f(i) <= 0;
  }

  /** What the partners' own accounts stood at before the close. */
  function PartnerClosings(closing: int -> int, ps: seq<Partner>): int {
    if ps == [] then 0
    else
      var p := ps[|ps| - 1];
      PartnerClosings(closing, ps[..|ps| - 1]) + closing(p.current)
        + (if p.capital.Some? then closing(p.capital.value) else 0)
  }

  /** A partner with a capital account whose current account ends on the Dr side owes the firm that much. */
  function OwedByPartners(closing: int -> int, ps: seq<Partner>, interests: seq<int>, shares: seq<int>): nat
    requires |ps| == |interests| == |shares|
  {
    if ps == [] then 0
    else
      var k := |ps| - 1;
      OwedByPartners(closing, ps[..k], interests[..k], shares[..k])
      + (if ps[k].capital.Some? then Max0(closing(ps[k].current) - interests[k] - shares[k]) else 0)
  }

  /** `sum(int_or(cell))`: the printed cells read back and added up; None where one cannot be read. */
  function ReadAll(cells: seq<string>): Option<int> {
    if cells == [] then Some(0)
    else
      var rest, last := ReadAll(cells[..|cells| - 1]), IntOr(cells[|cells| - 1]);
      if rest.Some? && last.Some? then Some(rest.value + last.value) else None
  }

  /** The printed cells read back to this much. */
  predicate ReadsTo(cells: seq<string>, amts: seq<int>) {
    |cells| == |amts| && forall k :: 0 <= k < |cells| ==> IntOr(cells[k]) == Some(amts[k])
  }

  lemma {:induction false} ReadsToTheSum(cells: seq<string>, amts: seq<int>)
    requires ReadsTo(cells, amts)
    ensures ReadAll(cells) == Some(Sum(amts))
  {
    if cells != [] {
      ReadsToTheSum(cells[..|cells| - 1], amts[..|amts| - 1]);
    }
  }

  /** The rows as printed, read back and added up, come to this. */
  method RowsComeTo(rows: seq<int>, total: int) returns (agree: bool)
    ensures agree <==> Sum(rows) == total
  {
    var cells := PrintCells(rows);
    ReadsToTheSum(cells, rows);
    agree := ReadAll(cells) == Some(total);
  }

  /** Amounts printed with nil shown are read back. */
  method PrintCells(amts: seq<int>) returns (cells: seq<string>)
    ensures ReadsTo(cells, amts)
  {
    cells := [];
    for k := 0 to |amts|
      invariant |cells| == k && forall j :: 0 <= j < k ==> IntOr(cells[j]) == Some(amts[j])
    {
      IntOrInvertsFmt(amts[k], true, true);
      cells := cells + [Fmt(amts[k], true, true)];
    }
  }

  lemma {:induction false} SumSnoc(amts: seq<int>, x: int)
    ensures Sum(amts + [x]) == Sum(amts) + x
  {
    assert (amts + [x])[..|amts|] == amts;
  }

  /** One partner more, in each of the sums. */
  lemma {:induction false} OnePartnerMore(closing: int -> int, ps: seq<Partner>, interests: seq<int>, shares: seq<int>,
      k: nat)
    requires k < |ps| == |interests| == |shares|
    ensures Sum(interests[..k + 1]) == Sum(interests[..k]) + interests[k]
    ensures Sum(shares[..k + 1]) == Sum(shares[..k]) + shares[k]
    ensures PartnerClosings(closing, ps[..k + 1]) == PartnerClosings(closing, ps[..k]) + closing(ps[k].current)
      + (if ps[k].capital.Some? then closing(ps[k].capital.value) else 0)
    ensures OwedByPartners(closing, ps[..k + 1], interests[..k + 1], shares[..k + 1])
         == OwedByPartners(closing, ps[..k], interests[..k], shares[..k])
            + (if ps[k].capital.Some? then Max0(closing(ps[k].current) - interests[k] - shares[k]) else 0)
  {
    assert ps[..k + 1][..k] == ps[..k];
    assert interests[..k + 1][..k] == interests[..k] && shares[..k + 1][..k] == shares[..k];
  }

  /** The amounts of the partners' rows, and the part of them that partners owe the firm. */
  method PartnerRows(closing: int -> int, ps: seq<Partner>, interests: seq<int>, shares: seq<int>)
    returns (rows: seq<int>, owed: nat)
    requires |ps| == |interests| == |shares|
    ensures Sum(rows) - owed == Sum(interests) + Sum(shares) - PartnerClosings(closing, ps)
    ensures owed == OwedByPartners(closing, ps, interests, shares)
  {
    rows, owed := [], 0;
    for k := 0 to |ps|
      invariant Sum(rows) - owed == Sum(interests[..k]) + Sum(shares[..k]) - PartnerClosings(closing, ps[..k])
      invariant owed == OwedByPartners(closing, ps[..k], interests[..k], shares[..k])
    {
      OnePartnerMore(closing, ps, interests, shares, k);
      var owes;
      rows, owes := OnePartnersRows(rows, closing, ps[k], -closing(ps[k].current) + interests[k] + shares[k]);
      owed := owed + owes;
    }
    assert ps[..|ps|] == ps && interests[..|ps|] == interests && shares[..|ps|] == shares;
  }

  /** A firm that keeps one account for him shows him in one row; else his capital account, and his current account on
      the side it falls. */
  method OnePartnersRows(before: seq<int>, closing: int -> int, p: Partner, after: int)
    returns (rows: seq<int>, owes: nat)
    ensures owes == if p.capital.Some? then Max0(-after) else 0
    ensures Sum(rows) == Sum(before) + after + owes - (if p.capital.Some? then closing(p.capital.value) else 0)
  {
    owes := 0;
    if p.capital.None? {
      rows := before + [after];
      SumSnoc(before, after);
      return;
    }
    rows := before + [-closing(p.capital.value)];
    SumSnoc(before, -closing(p.capital.value));
    if after >= 0 {
      SumSnoc(rows, after);
      rows := rows + [after];
    } else {
      owes := -after;
    }
  }

  /** The two sides without own money, filled in one pass over the chart. */
  method Sides(chart: seq<Account>, f: int -> int) returns (tl: int, ta: int)
    ensures ta == SumTo(AssetTerm(chart, f), |chart|) && tl == SumTo(LiabilityTerm(chart, f), |chart|)
    ensures ta - tl == KindTotal(chart, f, IsPlaced)
  {
    tl, ta := 0, 0;
    for i := 0 to |chart|
      invariant ta == SumTo(AssetTerm(chart, f), i) && tl == SumTo(LiabilityTerm(chart, f), i)
    {
      var k, bal := chart[i].kind, f(i);
      if IsPlaced(k) && bal != 0 {
        if OnAssetSide(k, bal) {
          ta := ta + Abs(bal);
        } else {
          tl := tl - bal;
        }
      }
    }
    SheetAgainstBalances(chart, f);
  }

  /** What the sheet moves to the firm's assets. */
  function Owed(b: BookData, ps: seq<Partner>): nat
    requires CanClose(b.chart, ps, Closing(b))
  {
    if ps == [] then 0
    else
      var shares := Appropriation(Closing(b), ps, Result(b.chart, Closing(b))).value;
      OwedByPartners(Closing(b), ps, Interests(Closing(b), ps), shares)
  }

  // ------------------------------------------------------------------ each partner's row

  /** The source's assertion on a partner's rows: his current account ends at its closing, his interest and his share;
      his capital account, if he has one, where it stood. */
  predicate RowHolds(b: BookData, ps: seq<Partner>, k: nat)
    requires ps != [] && CanClose(b.chart, ps, Closing(b)) && k < |ps|
  {
    && -After(b, ps)(ps[k].current) == -Closing(b)(ps[k].current) + PartnerPay(b.chart, ps, Closing(b))[k]
    && (ps[k].capital.Some? ==> After(b, ps)(ps[k].capital.value) == Closing(b)(ps[k].capital.value))
  }

  /** The other half of that assertion never fails: opening, put in and drawings make the closing. */
  lemma YearMakesTheClosing(b: BookData, i: nat)
    requires Balanced(b) && i < N(b)
    ensures Closing(b)(i) == Opening(b)(i) + DrMove(b, FY_START, FY_END)(i) - CrMove(b, FY_START, FY_END)(i)
  {
    BalanceIsOpeningAndMovement(b, i, FY_END);
    ClosingsBalance(b);
  }

  /** What the close pays into an account, and the balance it closes away. */
  function PaidOrClosed(b: BookData, ps: seq<Partner>, i: nat): int
    requires ps != [] && CanClose(b.chart, ps, Closing(b)) && i < N(b)
  {
    PaidTo(ps, PartnerPay(b.chart, ps, Closing(b)), i) + (if ClosesKind(ps, b.chart[i].kind) then Closing(b)(i) else 0)
  }

  /** His current account is paid his interest and share and no more, his capital account nothing, and neither is an
      income or expense head with a balance. */
  predicate IsPaidHisOwn(b: BookData, ps: seq<Partner>, k: nat)
    requires CanClose(b.chart, ps, Closing(b)) && PartnersInChart(b.chart, ps) && k < |ps|
  {
    && PaidOrClosed(b, ps, ps[k].current) == PartnerPay(b.chart, ps, Closing(b))[k]
    && (ps[k].capital.Some? ==> PaidOrClosed(b, ps, ps[k].capital.value) == 0)
  }

  /** A partner's rows hold exactly then. */
  lemma EachPartnerIsPaid(b: BookData, ps: seq<Partner>, k: nat)
    requires CanClose(b.chart, ps, Closing(b)) && PartnersInChart(b.chart, ps) && k < |ps|
    ensures RowHolds(b, ps, k) <==> IsPaidHisOwn(b, ps, k)
  {
    AfterOne(b, ps, ps[k].current);
    PaidInIsPay(b.chart, ps, Closing(b), ps[k].current);
    if ps[k].capital.Some? {
      AfterOne(b, ps, ps[k].capital.value);
      PaidInIsPay(b.chart, ps, Closing(b), ps[k].capital.value);
    }
  }

  /** Nobody but partner `skip` is paid anything into the account. */
  predicate NobodyElse(ps: seq<Partner>, amts: seq<int>, i: int, skip: int)
    requires |ps| == |amts|
  {
    forall j :: 0 <= j < |ps| && j != skip && ps[j].current == i ==> amts[j] == 0
  }

  lemma {:induction false} PaidToOnly(ps: seq<Partner>, amts: seq<int>, i: int, k: int)
    requires |ps| == |amts| && forall j :: 0 <= j < |amts| ==> amts[j] >= 0
    ensures var mine := if 0 <= k < |ps| && ps[k].current == i then amts[k] else 0;
      && PaidTo(ps, amts, i) >= mine
      && (PaidTo(ps, amts, i) == mine <==> NobodyElse(ps, amts, i, k))
  {
    if ps != [] {
      var last := |ps| - 1;
      PaidToOnly(ps[..last], amts[..last], i, k);
      if NobodyElse(ps, amts, i, k) {
        assert NobodyElse(ps[..last], amts[..last], i, k);
      } else if NobodyElse(ps[..last], amts[..last], i, k) {
        assert last != k && ps[last].current == i && amts[last] != 0;
      }
    }
  }

  /** No other partner who is paid anything shares his current account, and none is paid into his capital account. */
  predicate HasHisAccount(b: BookData, ps: seq<Partner>, k: nat)
    requires ps != [] && CanClose(b.chart, ps, Closing(b)) && k < |ps|
  {
    var pay := PartnerPay(b.chart, ps, Closing(b));
    && NobodyElse(ps, pay, ps[k].current, k)
    && (ps[k].capital.Some? ==> NobodyElse(ps, pay, ps[k].capital.value, -1))
  }

  predicate OnTheSheet(chart: seq<Account>, p: Partner) {
    && p.current < |chart| && IsBs(chart[p.current].kind)
    && (p.capital.Some? ==> p.capital.value < |chart| && IsBs(chart[p.capital.value].kind))
  }

  /** On balance-sheet accounts: exactly when he has his accounts to himself. */
  lemma EachPartnerHasHisAccount(b: BookData, ps: seq<Partner>, k: nat)
    requires CanClose(b.chart, ps, Closing(b)) && PartnersInChart(b.chart, ps) && k < |ps|
    requires OnTheSheet(b.chart, ps[k])
    ensures RowHolds(b, ps, k) <==> HasHisAccount(b, ps, k)
  {
    var pay := PartnerPay(b.chart, ps, Closing(b));
    PartnerPayIsTheResult(b.chart, ps, Closing(b));
    EachPartnerIsPaid(b, ps, k);
    PaidToOnly(ps, pay, ps[k].current, k);
    if ps[k].capital.Some? {
      PaidToOnly(ps, pay, ps[k].capital.value, -1);
    }
  }

  // ------------------------------------------------------------------ the sheet

  /** The sheet's totals and the outcome of its three other assertions. */
  datatype SheetOut = SheetOut(left: int, right: int, ownMoneyHolds: bool, rowsHold: bool, partnersAgree: bool)

  /** When post-close own money is start + put in - taken + result. */
  predicate ResultIsOwnMoney(b: BookData, ps: seq<Partner>)
    requires CanClose(b.chart, ps, Closing(b))
  {
    if ps != [] then PaidOnly(b.chart, ps, PartnerPay(b.chart, ps, Closing(b)), OfKind(b.chart, IsEquity))
    else
      OwnerIsInChart(b.chart);
      || IsEquity(b.chart[OwnerAccount(b.chart).value].kind)
      || Result(b.chart, Closing(b)) == KindTotal(b.chart, Closing(b), IsTakenHead)
  }

  lemma RowsAsPaid(b: BookData, ps: seq<Partner>)
    requires ps != [] && CanClose(b.chart, ps, Closing(b)) && PartnersInChart(b.chart, ps)
    ensures (forall k :: 0 <= k < |ps| ==> RowHolds(b, ps, k)) <==> forall k :: 0 <= k < |ps| ==> IsPaidHisOwn(b, ps, k)
    ensures (forall k :: 0 <= k < |ps| ==> OnTheSheet(b.chart, ps[k])) ==>
      ((forall k :: 0 <= k < |ps| ==> RowHolds(b, ps, k)) <==> forall k :: 0 <= k < |ps| ==> HasHisAccount(b, ps, k))
  {
    forall k | 0 <= k < |ps|
      ensures RowHolds(b, ps, k) <==> IsPaidHisOwn(b, ps, k)
      ensures OnTheSheet(b.chart, ps[k]) ==> (RowHolds(b, ps, k) <==> HasHisAccount(b, ps, k))
    {
      EachPartnerIsPaid(b, ps, k);
      if OnTheSheet(b.chart, ps[k]) {
        EachPartnerHasHisAccount(b, ps, k);
      }
    }
  }

  /** The partners' part of the sheet. */
  method PartnersPart(b: BookData, ps: seq<Partner>, ownClose: int) returns (rowsHold: bool, agree: bool, owed: nat)
    requires ps != [] && CanClose(b.chart, ps, Closing(b)) && PartnersInChart(b.chart, ps)
    ensures owed == Owed(b, ps)
    ensures rowsHold <==> forall k :: 0 <= k < |ps| ==> IsPaidHisOwn(b, ps, k)
    ensures (forall k :: 0 <= k < |ps| ==> OnTheSheet(b.chart, ps[k])) ==>
      (rowsHold <==> forall k :: 0 <= k < |ps| ==> HasHisAccount(b, ps, k))
    ensures agree <==> Result(b.chart, Closing(b)) - PartnerClosings(Closing(b), ps) == ownClose
  {
    var f := Closing(b);
    var rows;
    rows, owed := PartnerRows(f, ps, Interests(f, ps), Appropriation(f, ps, Result(b.chart, f)).value);
    AppropriationIsTheResult(f, ps, Result(b.chart, f));
    rowsHold := forall k :: 0 <= k < |ps| ==> RowHolds(b, ps, k);
    RowsAsPaid(b, ps);
    agree := RowsComeTo(rows, ownClose + owed);
  }

  /** The sheet. Its two totals agree for every balanced book, with or without partners. A partnership's rows come
      to own money, read back from their printed cells, exactly when the partners' accounts hold what every own-money
      account holds; the post-close own money holds exactly when the result went to own-money accounts; the partners'
      rows exactly when each is paid his own, which on balance-sheet accounts is to have his accounts to himself. */
  method Sheet(b: BookData, ps: seq<Partner>) returns (out: SheetOut)
    requires Balanced(b) && CanClose(b.chart, ps, Closing(b)) && PartnersInChart(b.chart, ps)
    ensures out.left == SumTo(LiabilityTerm(b.chart, Closing(b)), N(b)) + OwnClose(b) + Owed(b, ps)
    ensures out.right == SumTo(AssetTerm(b.chart, Closing(b)), N(b)) + Owed(b, ps)
    ensures out.left == out.right
    ensures out.ownMoneyHolds <==> ResultIsOwnMoney(b, ps)
    ensures out.rowsHold <==> forall k :: 0 <= k < |ps| ==> IsPaidHisOwn(b, ps, k)
    ensures (forall k :: 0 <= k < |ps| ==> OnTheSheet(b.chart, ps[k])) ==>
      (out.rowsHold <==> forall k :: 0 <= k < |ps| ==> HasHisAccount(b, ps, k))
    ensures out.partnersAgree
         <==> ps == [] || PartnerClosings(Closing(b), ps) == KindTotal(b.chart, Closing(b), IsEquity)
  {
    var f := Closing(b);
    var tl, ta := Sides(b.chart, f);
    OwnCloseIsClosings(b);
    var ownClose, owed := OwnClose(b), 0;
    OwnMoneyAfter(b, ps);
    var ownMoneyHolds := -KindTotal(b.chart, After(b, ps), IsEquity) == ownClose;
    var rowsHold, partnersAgree := true, true;
    if ps != [] {
      rowsHold, partnersAgree, owed := PartnersPart(b, ps, ownClose);
      ta := ta + owed;
    }
    out := SheetOut(tl + ownClose + owed, ta, ownMoneyHolds, rowsHold, partnersAgree);
  }

  lemma OwnMoneyAfter(b: BookData, ps: seq<Partner>)
    requires Balanced(b) && CanClose(b.chart, ps, Closing(b))
    ensures -KindTotal(b.chart, After(b, ps), IsEquity) == OwnClose(b) <==> ResultIsOwnMoney(b, ps)
  {
    if ps == [] {
      OwnerOwnMoney(b);
    } else {
      PartnersOwnMoney(b, ps);
    }
  }
}
