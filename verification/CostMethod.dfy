/** The cost method across two books: an owner holds a business at the money put into it, the business closes its
    result into its own money, and the difference is the profit kept in the business. */
module CostMethod {
  import opened Totals
  import opened Ledger
  import opened Options
  import opened YearClose
  import opened Reports
  import opened CloseExact
  import opened Family

  predicate IsStake(k: Kind) { k.Stake? }

  /** In the owner's book: an account of the pair that is neither a stake nor an income head. */
  predicate IsBeside(k: Kind) { !k.Stake? && !k.Income? }

  predicate IsStakeOrIncome(k: Kind) { k.Stake? || k.Income? }

  predicate NotEquity(k: Kind) { !IsEquity(k) }

  /** The business's own money on the pair's accounts after its close, less the stake the owner's book holds. */
  function KeptInBusiness(b: BookData, ba: set<int>, ps: seq<Partner>, o: BookData, oa: set<int>): int
    requires CanClose(b.chart, ps, Closing(b))
  {
    -NamedTotal(b, ba, IsEquity, After(b, ps)) - NamedTotal(o, oa, IsStake, Closing(o))
  }

  /** The money the owner's book shows as taken home. */
  function Takes(o: BookData, oa: set<int>): int {
    -NamedTotal(o, oa, IsIncome, Closing(o))
  }

  /** What stands on the pair's accounts besides own money, stake and income, and the openings no check bounds. */
  function Beside(b: BookData, ba: set<int>, o: BookData, oa: set<int>): int {
    NamedTotal(o, oa, IsBeside, Closing(o)) + NamedTotal(b, ba, NotEquity, Closing(b)) - HeadOpenings(o, oa)
      - HeadOpenings(b, ba)
  }

  /** Drawings and share-out heads of the business left out of the pair. */
  function TakenOutside(b: BookData, ba: set<int>): int {
    KindTotal(b.chart, Closing(b), IsTakenHead) - NamedTotal(b, ba, IsTakenHead, Closing(b))
  }

  /** The owner's book and the business's book before the close: stake plus income is the business's own money on
      the other side, but for what stands beside. */
  lemma StakeAgainstOwnMoney(b: BookData, ba: set<int>, o: BookData, oa: set<int>)
    requires PairAgrees(o, oa, b, ba)
    ensures -NamedTotal(b, ba, IsEquity, Closing(b))
         == NamedTotal(o, oa, IsStake, Closing(o)) - Takes(o, oa) + Beside(b, ba, o, oa)
  {
    PairClosings(o, oa, b, ba);
    NamedSplit(o, oa, Closing(o), IsStake, IsIncome, IsStakeOrIncome);
    NamedSplit(o, oa, Closing(o), IsStakeOrIncome, IsBeside, AnyKind);
    NamedSplit(b, ba, Closing(b), IsEquity, NotEquity, AnyKind);
  }

  lemma NamedAfterOne(b: BookData, ba: set<int>, ps: seq<Partner>, kept: Kind -> bool, i: nat)
    requires CanClose(b.chart, ps, Closing(b)) && i < N(b)
    requires kept(b.chart[i].kind) <==> IsEquity(b.chart[i].kind) && !ClosesKind(ps, b.chart[i].kind)
    ensures Named(b, ba, IsEquity, After(b, ps))(i) + Named(b, ba, IsEquity, PaidInOf(b.chart, ps, Closing(b)))(i)
         == Named(b, ba, kept, Closing(b))(i)
  {
    AfterOne(b, ps, i);
  }

  lemma NamedAfter(b: BookData, ba: set<int>, ps: seq<Partner>, kept: Kind -> bool)
    requires CanClose(b.chart, ps, Closing(b))
    requires forall k :: kept(k) <==> IsEquity(k) && !ClosesKind(ps, k)
    ensures NamedTotal(b, ba, IsEquity, After(b, ps))
         == NamedTotal(b, ba, kept, Closing(b)) - NamedTotal(b, ba, IsEquity, PaidInOf(b.chart, ps, Closing(b)))
  {
    var c := Closing(b);
    forall i | 0 <= i < N(b)
      ensures Named(b, ba, IsEquity, After(b, ps))(i) + Named(b, ba, IsEquity, PaidInOf(b.chart, ps, c))(i)
           == Named(b, ba, kept, c)(i)
    {
      NamedAfterOne(b, ba, ps, kept, i);
    }
    SumToAdd(Named(b, ba, IsEquity, After(b, ps)), Named(b, ba, IsEquity, PaidInOf(b.chart, ps, c)),
      Named(b, ba, kept, c), N(b));
  }

  /** The account the result is closed to is an own-money account of the pair. */
  predicate OwnerIsHeld(b: BookData, ba: set<int>)
    requires OwnerAccount(b.chart).Some?
  {
    var own := OwnerAccount(b.chart).value;
    own in ba && own < N(b) && IsEquity(b.chart[own].kind)
  }

  lemma PaidInToOwner(b: BookData, ba: set<int>)
    requires OwnerAccount(b.chart).Some?
    ensures NamedTotal(b, ba, IsEquity, PaidInOf(b.chart, [], Closing(b)))
         == if OwnerIsHeld(b, ba) then Result(b.chart, Closing(b)) - KindTotal(b.chart, Closing(b), IsTakenHead) else 0
  {
    var net := Result(b.chart, Closing(b)) - KindTotal(b.chart, Closing(b), IsTakenHead);
    SumToPoint(Named(b, ba, IsEquity, PaidInOf(b.chart, [], Closing(b))), OwnerAccount(b.chart).value,
               if OwnerIsHeld(b, ba) then net else 0, N(b));
  }

  /** The part of the result, after what was taken, that goes to an account outside the pair. */
  function ResultElsewhere(b: BookData, ba: set<int>): int
    requires OwnerAccount(b.chart).Some?
  {
    if OwnerIsHeld(b, ba) then 0 else Result(b.chart, Closing(b)) - KindTotal(b.chart, Closing(b), IsTakenHead)
  }

  /** A business of one owner: the identity is out by exactly what stands beside the pair, less the drawings left out of
      it, less the result that went elsewhere. */
  lemma ProfitKeptInABusiness(b: BookData, ba: set<int>, o: BookData, oa: set<int>)
    requires PairAgrees(o, oa, b, ba) && CanClose(b.chart, [], Closing(b))
    ensures KeptInBusiness(b, ba, [], o, oa)
         == Result(b.chart, Closing(b)) - Takes(o, oa) + Beside(b, ba, o, oa) - TakenOutside(b, ba)
           - ResultElsewhere(b, ba)
  {
    StakeAgainstOwnMoney(b, ba, o, oa);
    NamedAfter(b, ba, [], IsKeptEquity);
    NamedSplit(b, ba, Closing(b), IsKeptEquity, IsTakenHead, IsEquity);
    PaidInToOwner(b, ba);
  }

  /** A pair as the source keeps it: stakes and income heads that start at nil on the owner's side; only own-money
      accounts on the business's side. */
  predicate StakePair(b: BookData, ba: set<int>, o: BookData, oa: set<int>) {
    && (forall i :: 0 <= i < N(o) && i in oa ==>
      IsStakeOrIncome(o.chart[i].kind) && (o.chart[i].kind.Income? ==> o.chart[i].opening == 0))
    && (forall i :: 0 <= i < N(b) && i in ba ==> IsEquity(b.chart[i].kind))
  }

  lemma NothingBeside(b: BookData, ba: set<int>, o: BookData, oa: set<int>)
    requires StakePair(b, ba, o, oa)
    ensures Beside(b, ba, o, oa) == 0
  {
    SumToZero(Named(o, oa, IsBeside, Closing(o)), N(o));
    SumToZero(Named(b, ba, NotEquity, Closing(b)), N(b));
    SumToZero(Named(o, oa, IsHead, Opening(o)), N(o));
    SumToZero(Named(b, ba, IsHead, Opening(b)), N(b));
  }

  lemma NothingTakenOutside(b: BookData, ba: set<int>)
    requires forall i :: 0 <= i < N(b) && IsTakenHead(b.chart[i].kind) ==> i in ba
    ensures TakenOutside(b, ba) == 0
  {
    SumToEq(KindTerm(b.chart, Closing(b), IsTakenHead), Named(b, ba, IsTakenHead, Closing(b)), N(b));
  }

  /** The cost-method identity: own money less the stake is the profit less the money taken home, exactly when what
      stands beside the pair is the drawings left out of it and the result that went elsewhere. */
  lemma CostMethodIdentity(b: BookData, ba: set<int>, o: BookData, oa: set<int>)
    requires PairAgrees(o, oa, b, ba) && CanClose(b.chart, [], Closing(b))
    ensures KeptInBusiness(b, ba, [], o, oa) == Result(b.chart, Closing(b)) - Takes(o, oa)
       <==> Beside(b, ba, o, oa) == TakenOutside(b, ba) + ResultElsewhere(b, ba)
  {
    ProfitKeptInABusiness(b, ba, o, oa);
  }

  /** It always holds for a pair as the source keeps it, with the owner's account and every drawings head in the
      pair. */
  lemma CostMethodOfAStakePair(b: BookData, ba: set<int>, o: BookData, oa: set<int>)
    requires PairAgrees(o, oa, b, ba) && StakePair(b, ba, o, oa) && CanClose(b.chart, [], Closing(b))
    requires OwnerAccount(b.chart).value in ba
    requires forall i :: 0 <= i < N(b) && IsTakenHead(b.chart[i].kind) ==> i in ba
    ensures KeptInBusiness(b, ba, [], o, oa) == Result(b.chart, Closing(b)) - Takes(o, oa)
  {
    OwnerIsInChart(b.chart);
    CostMethodIdentity(b, ba, o, oa);
    NothingBeside(b, ba, o, oa);
    NothingTakenOutside(b, ba);
  }

  // ------------------------------------------------------------------ a firm

  /** The own-money accounts of the pair. */
  function HeldEquity(b: BookData, ba: set<int>): int -> bool {
    i => 0 <= i < N(b) && i in ba && IsEquity(b.chart[i].kind)
  }

  /** What the partners who bear the owner's name get. */
  function PayOf(pay: seq<int>, named: set<nat>): int {
    if pay == [] then 0
    else
      var k := |pay| - 1;
      PayOf(pay[..k], named) + (if k in named then pay[k] else 0)
  }

  /** What the close pays into the pair's own-money accounts. */
  function PaidIntoPair(b: BookData, ba: set<int>, ps: seq<Partner>): int
    requires ps != [] && CanClose(b.chart, ps, Closing(b))
  {
    PaidWhere(ps, PartnerPay(b.chart, ps, Closing(b)), HeldEquity(b, ba), N(b))
  }

  lemma PaidInToPair(b: BookData, ba: set<int>, ps: seq<Partner>)
    requires ps != [] && CanClose(b.chart, ps, Closing(b))
    ensures NamedTotal(b, ba, IsEquity, PaidInOf(b.chart, ps, Closing(b))) == PaidIntoPair(b, ba, ps)
  {
    var pay, paid := PartnerPay(b.chart, ps, Closing(b)), PaidInOf(b.chart, ps, Closing(b));
    PaidWhereAddsUp(ps, pay, HeldEquity(b, ba), N(b));
    forall i | 0 <= i < N(b) ensures Named(b, ba, IsEquity, paid)(i) == PaidAt(ps, pay, HeldEquity(b, ba))(i) {
      PaidInIsPay(b.chart, ps, Closing(b), i);
    }
    SumToEq(Named(b, ba, IsEquity, paid), PaidAt(ps, pay, HeldEquity(b, ba)), N(b));
  }

  /** A firm: against the part of the profit of the partners who bear the owner's name, the identity is out by exactly
      what stands beside the pair and by what the pair's accounts are paid above that part. */
  lemma {:induction false} ProfitKeptInAFirm(b: BookData, ba: set<int>, ps: seq<Partner>, named: set<nat>, o: BookData,
      oa: set<int>)
    requires PairAgrees(o, oa, b, ba) && ps != [] && CanClose(b.chart, ps, Closing(b))
    ensures KeptInBusiness(b, ba, ps, o, oa) == PaidIntoPair(b, ba, ps) - Takes(o, oa) + Beside(b, ba, o, oa)
    ensures var part := PayOf(PartnerPay(b.chart, ps, Closing(b)), named);
      KeptInBusiness(b, ba, ps, o, oa) == part - Takes(o, oa)
      <==> Beside(b, ba, o, oa) == part - PaidIntoPair(b, ba, ps)
  {
    StakeAgainstOwnMoney(b, ba, o, oa);
    NamedAfter(b, ba, ps, IsEquity);
    PaidInToPair(b, ba, ps);
  }

  lemma {:induction false} NamedAreThoseInPair(ps: seq<Partner>, pay: seq<int>, named: set<nat>, at: int -> bool,
      n: nat)
    requires |ps| == |pay|
    requires forall k :: 0 <= k < |ps| ==> (k in named <==> ps[k].current < n && at(ps[k].current))
    ensures PaidWhere(ps, pay, at, n) == PayOf(pay, named)
  {
    if ps != [] {
      var k := |ps| - 1;
      NamedAreThoseInPair(ps[..k], pay[..k], named, at, n);
    }
  }

  /** It always holds for a stake pair whose own-money accounts are those of the partners who bear the owner's name. */
  lemma {:induction false} CostMethodOfAFirm(b: BookData, ba: set<int>, ps: seq<Partner>, named: set<nat>, o: BookData,
      oa: set<int>)
    requires PairAgrees(o, oa, b, ba) && StakePair(b, ba, o, oa) && ps != [] && CanClose(b.chart, ps, Closing(b))
    requires forall k :: 0 <= k < |ps| ==> (k in named <==> HeldEquity(b, ba)(ps[k].current))
    ensures KeptInBusiness(b, ba, ps, o, oa) == PayOf(PartnerPay(b.chart, ps, Closing(b)), named) - Takes(o, oa)
  {
    ProfitKeptInAFirm(b, ba, ps, named, o, oa);
    NothingBeside(b, ba, o, oa);
    NamedAreThoseInPair(ps, PartnerPay(b.chart, ps, Closing(b)), named, HeldEquity(b, ba), N(b));
  }

  // ------------------------------------------------------------------ the account between the two books

  /** The closing figure of the printed account: brought forward, every entry, and the pair's year-close entries. */
  function PairClosing(b: BookData, ps: seq<Partner>, names: set<int>): int
    requires CanClose(b.chart, ps, Closing(b))
  {
    NamedTotal(b, names, IsBs, Opening(b)) + Amounts(PairEntries(b, names, N(b))) + ClosedOnPair(b, ps, names)
  }

  function ClosedBy(b: BookData, ps: seq<Partner>): int -> int
    requires CanClose(b.chart, ps, Closing(b))
  {
    i => Closed(CloseEntries(b.chart, ps, Closing(b)).value, InBook(i))
  }

  /** What the year close puts on the pair's accounts. */
  function ClosedOnPair(b: BookData, ps: seq<Partner>, names: set<int>): int
    requires CanClose(b.chart, ps, Closing(b))
  {
    NamedTotal(b, names, AnyKind, ClosedBy(b, ps))
  }

  /** The printed account ends at the accounts' post-close balances exactly when the pair's income and expense heads
      came in at nil. */
  lemma PairClosesAtPostClose(b: BookData, ps: seq<Partner>, names: set<int>)
    requires CanClose(b.chart, ps, Closing(b))
    ensures PairClosing(b, ps, names) == NamedTotal(b, names, AnyKind, After(b, ps)) <==> HeadOpenings(b, names) == 0
  {
    PairEntriesAddUp(b, names, N(b));
    NamedSplit(b, names, Opening(b), IsBs, IsHead, AnyKind);
    SumToAdd(Named(b, names, AnyKind, Closing(b)), Named(b, names, AnyKind, ClosedBy(b, ps)),
             Named(b, names, AnyKind, After(b, ps)), N(b));
  }

  function ClosedKinds(ps: seq<Partner>): Kind -> bool {
    k => ClosesKind(ps, k)
  }

  /** What the close takes off the pair's accounts: the balances of the kinds it closes, and what it pays in. */
  function TakenOffPair(b: BookData, ps: seq<Partner>, names: set<int>): int {
    NamedTotal(b, names, ClosedKinds(ps), Closing(b)) + NamedTotal(b, names, AnyKind, PaidInOf(b.chart, ps, Closing(b)))
  }

  lemma CloseTakesOff(b: BookData, ps: seq<Partner>, names: set<int>)
    requires CanClose(b.chart, ps, Closing(b))
    ensures ClosedOnPair(b, ps, names) == -TakenOffPair(b, ps, names)
  {
    var gone, paid := Named(b, names, ClosedKinds(ps), Closing(b)),
      Named(b, names, AnyKind, PaidInOf(b.chart, ps, Closing(b)));
    var off := (i: int) => gone(i) + paid(i);
    forall i | 0 <= i < N(b) ensures Named(b, names, AnyKind, ClosedBy(b, ps))(i) == -off(i) {
      AfterOne(b, ps, i);
    }
    SumToNeg(off, Named(b, names, AnyKind, ClosedBy(b, ps)), N(b));
    SumToAdd(gone, paid, off, N(b));
  }

  /** Two running accounts agree at the foot exactly when what the two closes take off them is opposite: the balances of
      their closed kinds, and the results paid in. */
  lemma RunningAccountsAgree(b: BookData, ps: seq<Partner>, mine: set<int>, ob: BookData, ops: seq<Partner>,
      theirs: set<int>)
    requires PairAgrees(b, mine, ob, theirs)
    requires CanClose(b.chart, ps, Closing(b)) && CanClose(ob.chart, ops, Closing(ob))
    ensures PairClosing(b, ps, mine) == -PairClosing(ob, ops, theirs)
       <==> TakenOffPair(b, ps, mine) == -TakenOffPair(ob, ops, theirs)
  {
    AmountsOfSameEntries(PairEntries(b, mine, N(b)), Mirror(PairEntries(ob, theirs, N(ob))));
    MirrorTurnsAmounts(PairEntries(ob, theirs, N(ob)));
    CloseTakesOff(b, ps, mine);
    CloseTakesOff(ob, ops, theirs);
  }

  /** The pair holds no head that the close brings to nil, and no account that the result or a share is paid into. */
  predicate LeftAlone(b: BookData, ps: seq<Partner>, names: set<int>) {
    forall i :: 0 <= i < N(b) && i in names ==>
      && !ClosesKind(ps, b.chart[i].kind)
      && (if ps == [] then OwnerAccount(b.chart) != Some(i) else forall k :: 0 <= k < |ps| ==> ps[k].current != i)
  }

  lemma NothingTakenOff(b: BookData, ps: seq<Partner>, names: set<int>)
    requires CanClose(b.chart, ps, Closing(b)) && LeftAlone(b, ps, names)
    ensures TakenOffPair(b, ps, names) == 0
  {
    var paid := Named(b, names, AnyKind, PaidInOf(b.chart, ps, Closing(b)));
    SumToZero(Named(b, names, ClosedKinds(ps), Closing(b)), N(b));
    forall i | 0 <= i < N(b) ensures paid(i) == 0 {
      if i in names && ps != [] {
        PaidInIsPay(b.chart, ps, Closing(b), i);
        NotPaidTo(ps, PartnerPay(b.chart, ps, Closing(b)), i);
      }
    }
    SumToZero(paid, N(b));
  }

  /** Two books whose closes leave the pair alone always agree. */
  lemma PairsLeftAloneAgree(b: BookData, ps: seq<Partner>, mine: set<int>, ob: BookData, ops: seq<Partner>,
      theirs: set<int>)
    requires PairAgrees(b, mine, ob, theirs) && LeftAlone(b, ps, mine) && LeftAlone(ob, ops, theirs)
    requires CanClose(b.chart, ps, Closing(b)) && CanClose(ob.chart, ops, Closing(ob))
    ensures PairClosing(b, ps, mine) == -PairClosing(ob, ops, theirs)
  {
    RunningAccountsAgree(b, ps, mine, ob, ops, theirs);
    NothingTakenOff(b, ps, mine);
    NothingTakenOff(ob, ops, theirs);
  }
}
