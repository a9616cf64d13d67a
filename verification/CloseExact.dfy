/** What the year close leaves behind, for every balanced book: when its own checks pass, what own money and
    the carried balances come to, the ledger that prints them, and the balance sheet. */
module CloseExact {
  import opened Totals
  import opened Ledger
  import opened BookPosting
  import opened Sharing
  import opened YearClose
  import opened Reports

  /** A book whose openings and entries balance, all dated in the year. */
  predicate Balanced(b: BookData) {
    DoubleEntries(b) && OpeningsBalance(b) && InYear(b.vouchers)
  }

  lemma ValidIsBalanced(b: BookData)
    requires ValidBook(b)
    ensures Balanced(b)
  {
    ValidBookIs(b);
    ValidIsDoubleEntry(b);
  }

  /** Each partner's accounts are in the chart; the source looks them up by name. */
  predicate PartnersInChart(chart: seq<Account>, ps: seq<Partner>) {
    forall k :: 0 <= k < |ps| ==>
      ps[k].current < |chart| && (ps[k].capital.Some? ==> ps[k].capital.value < |chart|)
  }

  /** The closing balances after the year close. */
  function After(b: BookData, ps: seq<Partner>): int -> int
    requires CanClose(b.chart, ps, Closing(b))
  {
    PostClose(Closing(b), CloseEntries(b.chart, ps, Closing(b)).value)
  }

  lemma ClosingsBalance(b: BookData)
    requires Balanced(b)
    ensures SumTo(Closing(b), N(b)) == 0
    ensures forall i :: 0 <= i < N(b) ==> Closing(b)(i) == BalAt(b, FY_END)(i)
  {
    forall i | 0 <= i < N(b) ensures Closing(b)(i) == BalAt(b, FY_END)(i) {
      ClosingIsBalanceAtYearEnd(b, i);
    }
    SumToEq(Closing(b), BalAt(b, FY_END), N(b));
    TrialBalanceAtEveryDate(b, FY_END);
  }

  /** The balance checks' trial balance never fails: entries that net to nil keep it level. */
  lemma ClosingColumnsAgree(b: BookData)
    requires Balanced(b)
    ensures SumTo(DrSide(Closing(b)), N(b)) == SumTo(CrSide(Closing(b)), N(b))
  {
    ClosingsBalance(b);
    SidesDiffer(Closing(b), N(b));
  }

  // ------------------------------------------------------------------ what is paid in, over the chart

  function PaidInOf(chart: seq<Account>, ps: seq<Partner>, closing: int -> int): int -> int {
    i => PaidIn(chart, ps, closing, i)
  }

  /** What goes to the partners whose account is one of some accounts of the chart. */
  function PaidWhere(ps: seq<Partner>, amts: seq<int>, at: int -> bool, n: nat): int
    requires |ps| == |amts|
  {
    if ps == [] then 0
    else
      var k := |ps| - 1;
      PaidWhere(ps[..k], amts[..k], at, n) + (if ps[k].current < n && at(ps[k].current) then amts[k] else 0)
  }

  function PaidAt(ps: seq<Partner>, amts: seq<int>, at: int -> bool): int -> int
    requires |ps| == |amts|
  {
    i => if at(i) then PaidTo(ps, amts, i) else 0
  }

  /** Account by account or partner by partner, it is the same. */
  lemma {:induction false} PaidWhereAddsUp(ps: seq<Partner>, amts: seq<int>, at: int -> bool, n: nat)
    requires |ps| == |amts|
    ensures SumTo(PaidAt(ps, amts, at), n) == PaidWhere(ps, amts, at, n)
  {
    if ps == [] {
      assert forall i :: PaidTo(ps, amts, i) == 0;
      SumToZero(PaidAt(ps, amts, at), n);
    } else {
      var k := |ps| - 1;
      var cur := ps[k].current;
      var point := (i: int) => if i == cur && at(cur) then amts[k] else 0;
      PaidWhereAddsUp(ps[..k], amts[..k], at, n);
      SumToPoint(point, cur, if at(cur) then amts[k] else 0, n);
      forall i | 0 <= i < n ensures PaidAt(ps, amts, at)(i) == PaidAt(ps[..k], amts[..k], at)(i) + point(i) {
        assert PaidTo(ps, amts, i) == PaidTo(ps[..k], amts[..k], i) + (if cur == i then amts[k] else 0);
      }
      var pre, all := PaidAt(ps[..k], amts[..k], at), PaidAt(ps, amts, at);
      assert forall i :: 0 <= i < n ==> all(i) == pre(i) + point(i);
      SumToAdd(pre, point, all, n);
    }
  }

  /** The partners outside some accounts get nothing. */
  predicate PaidOnly(chart: seq<Account>, ps: seq<Partner>, amts: seq<int>, at: int -> bool)
    requires |ps| == |amts|
  {
    forall k :: 0 <= k < |ps| ==> (ps[k].current < |chart| && at(ps[k].current)) || amts[k] == 0
  }

  /** Of amounts that are not negative, those accounts get all exactly when the partners outside them get nothing. */
  lemma {:induction false} PaidWhereIsAll(chart: seq<Account>, ps: seq<Partner>, amts: seq<int>, at: int -> bool)
    requires |ps| == |amts| && forall k :: 0 <= k < |amts| ==> amts[k] >= 0
    ensures PaidWhere(ps, amts, at, |chart|) <= Sum(amts)
    ensures PaidWhere(ps, amts, at, |chart|) == Sum(amts) <==> PaidOnly(chart, ps, amts, at)
  {
    if ps != [] {
      var k := |ps| - 1;
      PaidWhereIsAll(chart, ps[..k], amts[..k], at);
      if PaidOnly(chart, ps, amts, at) {
        assert PaidOnly(chart, ps[..k], amts[..k], at);
      } else if PaidOnly(chart, ps[..k], amts[..k], at) {
        assert !((ps[k].current < |chart| && at(ps[k].current)) || amts[k] == 0);
      }
    }
  }

  /** The accounts of some kinds. */
  function OfKind(chart: seq<Account>, p: Kind -> bool): int -> bool {
    i => 0 <= i < |chart| && p(chart[i].kind)
  }

  /** What a partnership's close pays to accounts of some kinds; it is the whole result exactly when no partner who is
      paid anything has his account elsewhere. */
  lemma {:induction false} PartnersGetTheResult(chart: seq<Account>, ps: seq<Partner>, closing: int -> int,
      p: Kind -> bool)
    requires ps != [] && CanClose(chart, ps, closing)
    ensures KindTotal(chart, PaidInOf(chart, ps, closing), p)
         == PaidWhere(ps, PartnerPay(chart, ps, closing), OfKind(chart, p), |chart|)
    ensures KindTotal(chart, PaidInOf(chart, ps, closing), p) == Result(chart, closing)
       <==> PaidOnly(chart, ps, PartnerPay(chart, ps, closing), OfKind(chart, p))
  {
    var pay := PartnerPay(chart, ps, closing);
    PartnerPayIsTheResult(chart, ps, closing);
    PaidWhereAddsUp(ps, pay, OfKind(chart, p), |chart|);
    forall i | 0 <= i < |chart|
      ensures KindTerm(chart, PaidInOf(chart, ps, closing), p)(i) == PaidAt(ps, pay, OfKind(chart, p))(i)
    {
      PaidInIsPay(chart, ps, closing, i);
    }
    SumToEq(KindTerm(chart, PaidInOf(chart, ps, closing), p), PaidAt(ps, pay, OfKind(chart, p)), |chart|);
    PaidWhereIsAll(chart, ps, pay, OfKind(chart, p));
  }

  lemma {:induction false} FirstWhereIsInChart(chart: seq<Account>, p: Account -> bool, n: nat)
    requires n <= |chart|
    ensures FirstWhere(chart, p, n).Some? ==>
         FirstWhere(chart, p, n).value < n && p(chart[FirstWhere(chart, p, n).value])
  {
    if n > 0 {
      FirstWhereIsInChart(chart, p, n - 1);
    }
  }

  lemma OwnerIsInChart(chart: seq<Account>)
    requires OwnerAccount(chart).Some?
    ensures OwnerAccount(chart).value < |chart|
  {
    FirstWhereIsInChart(chart, (a: Account) => a.kind.Capital?, |chart|);
    FirstWhereIsInChart(chart, (a: Account) => a.owner, |chart|);
  }

  /** A one-owner close pays the result, less what was taken, to the owner's account. */
  lemma OwnerGetsTheResult(chart: seq<Account>, closing: int -> int, p: Kind -> bool)
    requires CanClose(chart, [], closing)
    ensures OwnerAccount(chart).value < |chart|
    ensures KindTotal(chart, PaidInOf(chart, [], closing), p)
         == if p(chart[OwnerAccount(chart).value].kind)
           then Result(chart, closing) - KindTotal(chart, closing, IsTakenHead) else 0
  {
    OwnerIsInChart(chart);
    var own := OwnerAccount(chart).value;
    var amt := if p(chart[own].kind) then Result(chart, closing) - KindTotal(chart, closing, IsTakenHead) else 0;
    SumToPoint(KindTerm(chart, PaidInOf(chart, [], closing), p), own, amt, |chart|);
  }

  // ------------------------------------------------------------------ the closed heads

  /** The last check of the close: every income, expense, drawings and share-out head stands at nil. */
  predicate HeadsAreNil(b: BookData, ps: seq<Partner>)
    requires CanClose(b.chart, ps, Closing(b))
  {
    forall i :: 0 <= i < N(b) && IsClosedKind(b.chart[i].kind) ==> After(b, ps)(i) == 0
  }

  /** One owner: the heads end at nil exactly when the owner's account is not itself such a head (or the
      result and the takings cancel). */
  lemma OwnerCloseIsExact(b: BookData)
    requires CanClose(b.chart, [], Closing(b))
    ensures OwnerAccount(b.chart).value < N(b)
    ensures HeadsAreNil(b, []) <==>
      !IsClosedKind(b.chart[OwnerAccount(b.chart).value].kind)
      || Result(b.chart, Closing(b)) == KindTotal(b.chart, Closing(b), IsTakenHead)
  {
    OwnerIsInChart(b.chart);
    var own := OwnerAccount(b.chart).value;
    forall i | 0 <= i < N(b)
      ensures IsClosedKind(b.chart[i].kind) ==> After(b, [])(i) == -PaidIn(b.chart, [], Closing(b), i)
    {
      CloseDoes(b.chart, [], Closing(b), InBook(i));
    }
    if IsClosedKind(b.chart[own].kind) {
      assert After(b, [])(own) == -PaidIn(b.chart, [], Closing(b), own);
    }
  }

  /** An account after the close: at nil or where it stood, and what it is paid. */
  lemma AfterOne(b: BookData, ps: seq<Partner>, i: nat)
    requires CanClose(b.chart, ps, Closing(b)) && i < N(b)
    ensures After(b, ps)(i) + PaidInOf(b.chart, ps, Closing(b))(i)
         == if ClosesKind(ps, b.chart[i].kind) then 0 else Closing(b)(i)
  {
    CloseDoes(b.chart, ps, Closing(b), InBook(i));
  }

  /** A partnership: the heads end at nil exactly when each drawings or share-out head stands at what its partners are
      paid into it, and no partner is paid into an income or expense head; the close does not touch drawings. */
  lemma {:induction false} PartnersCloseIsExact(b: BookData, ps: seq<Partner>)
    requires ps != [] && CanClose(b.chart, ps, Closing(b))
    ensures HeadsAreNil(b, ps) <==>
      forall i :: 0 <= i < N(b) && IsClosedKind(b.chart[i].kind) ==>
        PaidTo(ps, PartnerPay(b.chart, ps, Closing(b)), i) == if IsTakenHead(b.chart[i].kind) then Closing(b)(i) else 0
  {
    forall i | 0 <= i < N(b) && IsClosedKind(b.chart[i].kind)
      ensures After(b, ps)(i) == (if IsTakenHead(b.chart[i].kind) then Closing(b)(i) else 0)
                               - PaidTo(ps, PartnerPay(b.chart, ps, Closing(b)), i)
    {
      AfterOne(b, ps, i);
      PaidInIsPay(b.chart, ps, Closing(b), i);
    }
  }

  /** With partners paid into accounts that are not heads: exactly when no drawings or share-out head stands off nil. */
  lemma PartnersCloseLeavesDrawings(b: BookData, ps: seq<Partner>)
    requires ps != [] && CanClose(b.chart, ps, Closing(b))
    requires forall k :: 0 <= k < |ps| ==> ps[k].current < N(b) && !IsClosedKind(b.chart[ps[k].current].kind)
    ensures HeadsAreNil(b, ps) <==> forall i :: 0 <= i < N(b) && IsTakenHead(b.chart[i].kind) ==> Closing(b)(i) == 0
  {
    PartnersCloseIsExact(b, ps);
    forall i | 0 <= i < N(b) && IsClosedKind(b.chart[i].kind)
      ensures PaidTo(ps, PartnerPay(b.chart, ps, Closing(b)), i) == 0
    {
      NotPaidTo(ps, PartnerPay(b.chart, ps, Closing(b)), i);
    }
  }

  // ------------------------------------------------------------------ own money and the carried balances

  /** The post-close total of some kinds of account. */
  lemma AfterTotal(b: BookData, ps: seq<Partner>, p: Kind -> bool, q: Kind -> bool)
    requires CanClose(b.chart, ps, Closing(b))
    requires forall k :: q(k) <==> p(k) && !ClosesKind(ps, k)
    ensures KindTotal(b.chart, After(b, ps), p)
         == KindTotal(b.chart, Closing(b), q) - KindTotal(b.chart, PaidInOf(b.chart, ps, Closing(b)), p)
  {
    var c := Closing(b);
    forall i | 0 <= i < N(b)
      ensures KindTerm(b.chart, After(b, ps), p)(i) + KindTerm(b.chart, PaidInOf(b.chart, ps, c), p)(i)
           == KindTerm(b.chart, c, q)(i)
    {
      AfterOne(b, ps, i);
      assert q(b.chart[i].kind) <==> p(b.chart[i].kind) && !ClosesKind(ps, b.chart[i].kind);
    }
    SumToAdd(KindTerm(b.chart, After(b, ps), p), KindTerm(b.chart, PaidInOf(b.chart, ps, c), p),
      KindTerm(b.chart, c, q), N(b));
  }

  predicate IsKeptEquity(k: Kind) { IsEquity(k) && !IsTakenHead(k) }

  /** Own money at the end of the year: start + put in - taken out + the result. */
  function OwnClose(b: BookData): int {
    OwnStartPutTaken(b, FY_END) + Result(b.chart, Closing(b))
  }

  lemma OwnCloseIsClosings(b: BookData)
    requires Balanced(b)
    ensures OwnClose(b) == Result(b.chart, Closing(b)) - KindTotal(b.chart, Closing(b), IsEquity)
    ensures OwnClose(b) == KindTotal(b.chart, Closing(b), IsPlaced)
  {
    ClosingsBalance(b);
    EquityPartsAreBalances(b, FY_END);
    KindTotalEq(b.chart, Closing(b), BalAt(b, FY_END), IsEquity);
    KindsMakeTheWhole(b.chart, Closing(b));
  }

  /** After a one-owner close, own money is start + put in - taken + result exactly when the result went to an
      own-money account (or came to nothing). */
  lemma OwnerOwnMoney(b: BookData)
    requires Balanced(b) && CanClose(b.chart, [], Closing(b))
    ensures OwnerAccount(b.chart).value < N(b)
    ensures -KindTotal(b.chart, After(b, []), IsEquity) == OwnClose(b) <==>
      IsEquity(b.chart[OwnerAccount(b.chart).value].kind)
      || Result(b.chart, Closing(b)) == KindTotal(b.chart, Closing(b), IsTakenHead)
  {
    OwnCloseIsClosings(b);
    OwnerGetsTheResult(b.chart, Closing(b), IsEquity);
    AfterTotal(b, [], IsEquity, IsKeptEquity);
    KindTotalSplit(b.chart, Closing(b), IsKeptEquity, IsTakenHead, IsEquity);
  }

  /** After a partnership's close, own money is start + put in - taken + result exactly when every partner who is paid
      anything has an own-money account. */
  lemma PartnersOwnMoney(b: BookData, ps: seq<Partner>)
    requires ps != [] && Balanced(b) && CanClose(b.chart, ps, Closing(b))
    ensures -KindTotal(b.chart, After(b, ps), IsEquity) == OwnClose(b)
       <==> PaidOnly(b.chart, ps, PartnerPay(b.chart, ps, Closing(b)), OfKind(b.chart, IsEquity))
  {
    OwnCloseIsClosings(b);
    PartnersGetTheResult(b.chart, ps, Closing(b), IsEquity);
    AfterTotal(b, ps, IsEquity, IsEquity);
  }

  predicate IsKept(k: Kind) { IsBs(k) && !IsTakenHead(k) }

  lemma ClosingKinds(b: BookData)
    requires Balanced(b)
    ensures KindTotal(b.chart, Closing(b), AnyKind) == 0
    ensures KindTotal(b.chart, Closing(b), IsHead) == -Result(b.chart, Closing(b))
  {
    ClosingsBalance(b);
    SumToEq(Closing(b), KindTerm(b.chart, Closing(b), AnyKind), N(b));
    KindTotalSplit(b.chart, Closing(b), IsIncome, IsExpense, IsHead);
  }

  /** The result went to accounts that are carried into the next year. */
  predicate ResultIsCarried(b: BookData, ps: seq<Partner>)
    requires CanClose(b.chart, ps, Closing(b))
  {
    if ps != [] then PaidOnly(b.chart, ps, PartnerPay(b.chart, ps, Closing(b)), OfKind(b.chart, IsBs))
    else
      OwnerIsInChart(b.chart);
      || IsBs(b.chart[OwnerAccount(b.chart).value].kind)
      || Result(b.chart, Closing(b)) == KindTotal(b.chart, Closing(b), IsTakenHead)
  }

  lemma OwnerCarries(b: BookData)
    requires CanClose(b.chart, [], Closing(b)) && KindTotal(b.chart, Closing(b), IsBs) == Result(b.chart, Closing(b))
    ensures KindTotal(b.chart, After(b, []), IsBs) == 0 <==> ResultIsCarried(b, [])
  {
    OwnerGetsTheResult(b.chart, Closing(b), IsBs);
    AfterTotal(b, [], IsBs, IsKept);
    KindTotalSplit(b.chart, Closing(b), IsKept, IsTakenHead, IsBs);
  }

  lemma PartnersCarry(b: BookData, ps: seq<Partner>)
    requires ps != [] && CanClose(b.chart, ps, Closing(b))
    requires KindTotal(b.chart, Closing(b), IsBs) == Result(b.chart, Closing(b))
    ensures KindTotal(b.chart, After(b, ps), IsBs) == 0 <==> ResultIsCarried(b, ps)
  {
    PartnersGetTheResult(b.chart, ps, Closing(b), IsBs);
    AfterTotal(b, ps, IsBs, IsBs);
  }

  /** The two columns of the carry-forward agree exactly when the owner's account, or that of every partner who is paid
      anything, is not itself an income or expense head (or there is nothing to pay). */
  lemma CarriedBalancesAddUp(b: BookData, ps: seq<Partner>)
    requires Balanced(b) && CanClose(b.chart, ps, Closing(b))
    ensures KindTotal(b.chart, After(b, ps), IsBs) == 0 <==> ResultIsCarried(b, ps)
  {
    ClosingKinds(b);
    KindTotalSplit(b.chart, Closing(b), IsBs, IsHead, AnyKind);
    if ps == [] {
      OwnerCarries(b);
    } else {
      PartnersCarry(b, ps);
    }
  }

  lemma {:induction false} PaidToAtLeast(ps: seq<Partner>, amts: seq<int>, k: nat)
    requires |ps| == |amts| && k < |ps| && forall j :: 0 <= j < |amts| ==> amts[j] >= 0
    ensures PaidTo(ps, amts, ps[k].current) >= amts[k]
    decreases |ps|
  {
    var last := |ps| - 1;
    if k < last {
      PaidToAtLeast(ps[..last], amts[..last], k);
    } else {
      PaidToNotNegative(ps[..last], amts[..last], ps[k].current);
    }
  }

  lemma {:induction false} PaidToNotNegative(ps: seq<Partner>, amts: seq<int>, i: int)
    requires |ps| == |amts| && forall j :: 0 <= j < |amts| ==> amts[j] >= 0
    ensures PaidTo(ps, amts, i) >= 0
  {
    if ps != [] {
      PaidToNotNegative(ps[..|ps| - 1], amts[..|ps| - 1], i);
    }
  }

  lemma {:induction false} HeadsGetNothing(chart: seq<Account>, ps: seq<Partner>, pay: seq<int>)
    requires |ps| == |pay| && PartnersInChart(chart, ps) && forall j :: 0 <= j < |pay| ==> pay[j] >= 0
    requires forall i :: 0 <= i < |chart| && IsHead(chart[i].kind) ==> PaidTo(ps, pay, i) == 0
    ensures PaidOnly(chart, ps, pay, OfKind(chart, IsBs))
  {
    forall k | 0 <= k < |ps| ensures OfKind(chart, IsBs)(ps[k].current) || pay[k] == 0 {
      PaidToAtLeast(ps, pay, k);
    }
  }

  lemma ClosedFirmCarries(b: BookData, ps: seq<Partner>)
    requires ps != [] && CanClose(b.chart, ps, Closing(b)) && HeadsAreNil(b, ps) && PartnersInChart(b.chart, ps)
    ensures ResultIsCarried(b, ps)
  {
    PartnersCloseIsExact(b, ps);
    PartnerPayIsTheResult(b.chart, ps, Closing(b));
    HeadsGetNothing(b.chart, ps, PartnerPay(b.chart, ps, Closing(b)));
  }

  /** So whenever the close's own last check has passed. */
  lemma CarriedOnceClosed(b: BookData, ps: seq<Partner>)
    requires Balanced(b) && CanClose(b.chart, ps, Closing(b)) && HeadsAreNil(b, ps)
    requires PartnersInChart(b.chart, ps)
    ensures KindTotal(b.chart, After(b, ps), IsBs) == 0
  {
    CarriedBalancesAddUp(b, ps);
    if ps == [] {
      OwnerCloseIsExact(b);
    } else {
      ClosedFirmCarries(b, ps);
    }
  }
}
