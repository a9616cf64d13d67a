/** The year close a book makes itself: income and expense heads to the result, the result to own money
    or through the appropriation to the partners, the drawings to own money. Its exactness for every book. */
module YearClose {
  import opened Arith
  import opened Options
  import opened Totals
  import opened Ledger
  import opened Sharing

  /** Interest on capital in basis points, nil when none is agreed. */
  datatype Partner = Partner(capital: Option<nat>, current: nat, share: nat, iocBp: nat)

  /** A close line names an account of the chart, or one of the two accounts that live for the close only. */
  datatype Head = InBook(acct: int) | ResultAc | AppropriationAc
  datatype CloseLine = CloseLine(head: Head, amt: int)

  // ------------------------------------------------------------------ figures by kind

  function KindTerm(chart: seq<Account>, f: int -> int, p: Kind -> bool): int -> int {
    i => if 0 <= i < |chart| && p(chart[i].kind) then f(i) else 0
  }

  /** The figures of every account of some kinds, added up in chart order. */
  function KindTotal(chart: seq<Account>, f: int -> int, p: Kind -> bool): int {
    SumTo(KindTerm(chart, f, p), |chart|)
  }

  lemma KindTotalSplit(chart: seq<Account>, f: int -> int, p: Kind -> bool, q: Kind -> bool, r: Kind -> bool)
    requires forall k :: r(k) <==> p(k) || q(k)
    requires forall k :: !(p(k) && q(k))
    ensures KindTotal(chart, f, r) == KindTotal(chart, f, p) + KindTotal(chart, f, q)
  {
    forall i | 0 <= i < |chart|
      ensures KindTerm(chart, f, r)(i) == KindTerm(chart, f, p)(i) + KindTerm(chart, f, q)(i)
    {
      var k := chart[i].kind;
      assert r(k) <==> p(k) || q(k);
      assert !(p(k) && q(k));
    }
    SumToAdd(KindTerm(chart, f, p), KindTerm(chart, f, q), KindTerm(chart, f, r), |chart|);
  }

  predicate IsDrawings(k: Kind) { k.Drawings? }

  predicate IsShareOut(k: Kind) { k.ShareOut? }

  predicate IsTakenHead(k: Kind) { k.Drawings? || k.ShareOut? }

  /** The heads a close leaves at nil. */
  predicate IsClosedKind(k: Kind) { k.Income? || k.Expense? || k.Drawings? || k.ShareOut? }

  predicate AnyKind(k: Kind) { true }

  // ------------------------------------------------------------------ the entries

  function NonZero(ls: seq<CloseLine>): seq<CloseLine> {
    if ls == [] then []
    else if ls[|ls| - 1].amt != 0 then NonZero(ls[..|ls| - 1]) + [ls[|ls| - 1]]
    else NonZero(ls[..|ls| - 1])
  }

  /** One entry of the close: its nil lines dropped, and no entry at all when nothing is left. */
  function EntryOf(ls: seq<CloseLine>): seq<seq<CloseLine>> {
    if NonZero(ls) == [] then [] else [NonZero(ls)]
  }

  /** A line for every head of one kind that stands off nil, in chart order. */
  function HeadLines(chart: seq<Account>, closing: int -> int, p: Kind -> bool, n: nat): seq<CloseLine>
    requires n <= |chart|
  {
    if n == 0 then []
    else if p(chart[n - 1].kind) && closing(n - 1) != 0 then
      HeadLines(chart, closing, p, n - 1) + [CloseLine(InBook(n - 1), -closing(n - 1))]
    else HeadLines(chart, closing, p, n - 1)
  }

  function Result(chart: seq<Account>, closing: int -> int): int {
    -KindTotal(chart, closing, IsIncome) - KindTotal(chart, closing, IsExpense)
  }

  /** The own-money account the result goes to: the first capital account, else the first of the Owner group. */
  function FirstWhere(chart: seq<Account>, p: Account -> bool, n: nat): Option<nat>
    requires n <= |chart|
  {
    if n == 0 then None
    else
      var before := FirstWhere(chart, p, n - 1);
      if before.Some? then before else if p(chart[n - 1]) then Some(n - 1) else None
  }

  function OwnerAccount(chart: seq<Account>): Option<nat> {
    var capital := FirstWhere(chart, (a: Account) => a.kind.Capital?, |chart|);
    if capital.Some? then capital else FirstWhere(chart, (a: Account) => a.owner, |chart|)
  }

  /** The first account of the chart that is so, or none is. */
  predicate IsFirst(chart: seq<Account>, p: Account -> bool, found: Option<nat>) {
    match found
    case None => forall i :: 0 <= i < |chart| ==> !p(chart[i])
    case Some(k) => k < |chart| && p(chart[k]) && forall i :: 0 <= i < k ==> !p(chart[i])
  }

  lemma {:induction false} FirstWhereIsFirst(chart: seq<Account>, p: Account -> bool, n: nat)
    requires n <= |chart|
    ensures IsFirst(chart[..n], p, FirstWhere(chart, p, n))
  {
    if n > 0 {
      FirstWhereIsFirst(chart, p, n - 1);
    }
  }

  /** The result goes to the first capital account; to the first account of the Owner group where there is none. */
  lemma OwnerIsTheFirst(chart: seq<Account>)
    ensures (exists i :: 0 <= i < |chart| && chart[i].kind == Capital) ==>
      IsFirst(chart, (a: Account) => a.kind == Capital, OwnerAccount(chart))
    ensures (forall i :: 0 <= i < |chart| ==> chart[i].kind != Capital) ==>
      IsFirst(chart, (a: Account) => a.owner, OwnerAccount(chart))
  {
    assert chart[..|chart|] == chart;
    FirstWhereIsFirst(chart, (a: Account) => a.kind.Capital?, |chart|);
    FirstWhereIsFirst(chart, (a: Account) => a.owner, |chart|);
  }

  function Interest(closing: int -> int, p: Partner): nat {
    if p.capital.Some? && -closing(p.capital.value) > 0 then HalfUp(-closing(p.capital.value) * p.iocBp, 10000) else 0
  }

  function Interests(closing: int -> int, ps: seq<Partner>): seq<int> {
    seq(|ps|, k requires 0 <= k < |ps| => Interest(closing, ps[k]))
  }

  function Ratio(ps: seq<Partner>): seq<nat> {
    seq(|ps|, k requires 0 <= k < |ps| => ps[k].share)
  }

  /** Interest on capital first, only out of profit, then the rest in the agreed shares. */
  function Appropriation(closing: int -> int, ps: seq<Partner>, result: int): (shares: Option<seq<int>>)
    ensures shares.Some? ==> |shares.value| == |ps|
  {
    var rest := result - Sum(Interests(closing, ps));
    if rest <= 0 || Weight(Ratio(ps)) == 0 then None else Some(Shares(rest, Ratio(ps)))
  }

  function PartnerLines(ps: seq<Partner>, amts: seq<int>): seq<CloseLine>
    requires |ps| == |amts|
  {
    seq(|ps|, k requires 0 <= k < |ps| => CloseLine(InBook(ps[k].current), -amts[k]))
  }

  /** Income heads, then expense heads, to the result account. */
  function HeadEntries(chart: seq<Account>, closing: int -> int): seq<seq<CloseLine>> {
    var n := |chart|;
    var ti, te := -KindTotal(chart, closing, IsIncome), KindTotal(chart, closing, IsExpense);
    EntryOf(HeadLines(chart, closing, IsIncome, n) + [CloseLine(ResultAc, -ti)])
    + EntryOf([CloseLine(ResultAc, te)] + HeadLines(chart, closing, IsExpense, n))
  }

  function PaidEntry(ps: seq<Partner>, amts: seq<int>): seq<seq<CloseLine>>
    requires |ps| == |amts|
  {
    EntryOf([CloseLine(AppropriationAc, Sum(amts))] + PartnerLines(ps, amts))
  }

  /** The result to the appropriation account, and from there to the partners' accounts. */
  function PartnerEntries(ps: seq<Partner>, result: int, interests: seq<int>, shares: seq<int>): seq<seq<CloseLine>>
    requires |ps| == |interests| == |shares|
  {
    EntryOf([CloseLine(ResultAc, result), CloseLine(AppropriationAc, -result)])
    + PaidEntry(ps, interests) + PaidEntry(ps, shares)
  }

  function TakenEntry(chart: seq<Account>, closing: int -> int, own: nat, p: Kind -> bool): seq<seq<CloseLine>> {
    EntryOf([CloseLine(InBook(own), KindTotal(chart, closing, p))] + HeadLines(chart, closing, p, |chart|))
  }

  /** The result to own money, then the drawings and the business income shared out. */
  function OwnerEntries(chart: seq<Account>, closing: int -> int, own: nat, result: int): seq<seq<CloseLine>> {
    EntryOf([CloseLine(ResultAc, result), CloseLine(InBook(own), -result)])
    + TakenEntry(chart, closing, own, IsDrawings) + TakenEntry(chart, closing, own, IsShareOut)
  }

  /** The source stops a partnership without a profit to share after interest, and a book without an own-money
      account; it divides by the sum of the ratios. */
  predicate CanClose(chart: seq<Account>, ps: seq<Partner>, closing: int -> int) {
    var result := Result(chart, closing);
    if ps != [] then result > 0 && result > Sum(Interests(closing, ps)) && Weight(Ratio(ps)) > 0
    else OwnerAccount(chart).Some?
  }

  /** The entries of the close, in order; None where the source stops the book. */
  function CloseEntries(chart: seq<Account>, ps: seq<Partner>, closing: int -> int): (out: Option<seq<seq<CloseLine>>>)
    ensures out.Some? <==> CanClose(chart, ps, closing)
  {
    var result := Result(chart, closing);
    if ps != [] then
      var shares := Appropriation(closing, ps, result);
      if result <= 0 || shares.None? then None
      else Some(HeadEntries(chart, closing) + PartnerEntries(ps, result, Interests(closing, ps), shares.value))
    else
      match OwnerAccount(chart)
      case None => None
      case Some(own) => Some(HeadEntries(chart, closing) + OwnerEntries(chart, closing, own, result))
  }

  // ------------------------------------------------------------------ what the entries do

  function HeadDelta(ls: seq<CloseLine>, h: Head): int {
    if ls == [] then 0
    else HeadDelta(ls[..|ls| - 1], h) + (if ls[|ls| - 1].head == h then ls[|ls| - 1].amt else 0)
  }

  function CloseNet(ls: seq<CloseLine>): int {
    if ls == [] then 0 else CloseNet(ls[..|ls| - 1]) + ls[|ls| - 1].amt
  }

  function Closed(es: seq<seq<CloseLine>>, h: Head): int {
    if es == [] then 0 else Closed(es[..|es| - 1], h) + HeadDelta(es[|es| - 1], h)
  }

  predicate AllNil(es: seq<seq<CloseLine>>) {
    forall k :: 0 <= k < |es| ==> CloseNet(es[k]) == 0
  }

  /** Every account's balance after the close. */
  function PostClose(closing: int -> int, es: seq<seq<CloseLine>>): int -> int {
    i => closing(i) + Closed(es, InBook(i))
  }

  lemma {:induction false} OneMoreCloseLine(pre: seq<CloseLine>, l: CloseLine, h: Head)
    ensures HeadDelta(pre + [l], h) == HeadDelta(pre, h) + (if l.head == h then l.amt else 0)
    ensures CloseNet(pre + [l]) == CloseNet(pre) + l.amt
  {
    assert (pre + [l])[..|pre|] == pre;
  }

  lemma {:induction false} NonZeroKeepsDelta(ls: seq<CloseLine>, h: Head)
    ensures HeadDelta(NonZero(ls), h) == HeadDelta(ls, h)
  {
    if ls != [] {
      NonZeroKeepsDelta(ls[..|ls| - 1], h);
      OneMoreCloseLine(NonZero(ls[..|ls| - 1]), ls[|ls| - 1], h);
    }
  }

  lemma {:induction false} NonZeroKeepsNet(ls: seq<CloseLine>)
    ensures CloseNet(NonZero(ls)) == CloseNet(ls)
  {
    if ls != [] {
      NonZeroKeepsNet(ls[..|ls| - 1]);
      OneMoreCloseLine(NonZero(ls[..|ls| - 1]), ls[|ls| - 1], ResultAc);
    }
  }

  lemma {:induction false} HeadDeltaConcat(a: seq<CloseLine>, b: seq<CloseLine>, h: Head)
    ensures HeadDelta(a + b, h) == HeadDelta(a, h) + HeadDelta(b, h)
    ensures CloseNet(a + b) == CloseNet(a) + CloseNet(b)
  {
    if b == [] {
      assert a + b == a;
    } else {
      assert (a + b)[..|a + b| - 1] == a + b[..|b| - 1];
      HeadDeltaConcat(a, b[..|b| - 1], h);
    }
  }

  lemma {:induction false} ClosedConcat(a: seq<seq<CloseLine>>, b: seq<seq<CloseLine>>, h: Head)
    ensures Closed(a + b, h) == Closed(a, h) + Closed(b, h)
  {
    if b == [] {
      assert a + b == a;
    } else {
      assert (a + b)[..|a + b| - 1] == a + b[..|b| - 1];
      ClosedConcat(a, b[..|b| - 1], h);
    }
  }

  /** Groups of entries one after another. */
  lemma {:induction false} GroupsDo(a: seq<seq<CloseLine>>, b: seq<seq<CloseLine>>, h: Head)
    requires AllNil(a) && AllNil(b)
    ensures AllNil(a + b) && Closed(a + b, h) == Closed(a, h) + Closed(b, h)
  {
    ClosedConcat(a, b, h);
  }

  lemma {:induction false} EntryDoes(ls: seq<CloseLine>, h: Head)
    ensures Closed(EntryOf(ls), h) == HeadDelta(ls, h)
    ensures AllNil(EntryOf(ls)) <== CloseNet(ls) == 0
  {
    NonZeroKeepsDelta(ls, h);
    NonZeroKeepsNet(ls);
    if NonZero(ls) != [] {
      assert [NonZero(ls)][..0] == [];
    }
  }

  /** What one more head adds. */
  lemma {:induction false} NextHeadDelta(chart: seq<Account>, closing: int -> int, p: Kind -> bool, n: nat, h: Head)
    requires 0 < n <= |chart|
    ensures HeadDelta(HeadLines(chart, closing, p, n), h) == HeadDelta(HeadLines(chart, closing, p, n - 1), h)
         - (if h == InBook(n - 1) && p(chart[n - 1].kind) then closing(n - 1) else 0)
  {
    if p(chart[n - 1].kind) && closing(n - 1) != 0 {
      OneMoreCloseLine(HeadLines(chart, closing, p, n - 1), CloseLine(InBook(n - 1), -closing(n - 1)), h);
    }
  }

  lemma {:induction false} NextHeadNet(chart: seq<Account>, closing: int -> int, p: Kind -> bool, n: nat)
    requires 0 < n <= |chart|
    ensures CloseNet(HeadLines(chart, closing, p, n))
         == CloseNet(HeadLines(chart, closing, p, n - 1)) - KindTerm(chart, closing, p)(n - 1)
  {
    if p(chart[n - 1].kind) && closing(n - 1) != 0 {
      OneMoreCloseLine(HeadLines(chart, closing, p, n - 1), CloseLine(InBook(n - 1), -closing(n - 1)), ResultAc);
    }
  }

  lemma {:induction false} HeadLinesDelta(chart: seq<Account>, closing: int -> int, p: Kind -> bool, n: nat, h: Head)
    requires n <= |chart|
    ensures HeadDelta(HeadLines(chart, closing, p, n), h)
         == if h.InBook? && 0 <= h.acct < n && p(chart[h.acct].kind) then -closing(h.acct) else 0
  {
    if n > 0 {
      HeadLinesDelta(chart, closing, p, n - 1, h);
      NextHeadDelta(chart, closing, p, n, h);
    }
  }

  lemma {:induction false} HeadLinesNet(chart: seq<Account>, closing: int -> int, p: Kind -> bool, n: nat)
    requires n <= |chart|
    ensures CloseNet(HeadLines(chart, closing, p, n)) == -SumTo(KindTerm(chart, closing, p), n)
  {
    if n > 0 {
      HeadLinesNet(chart, closing, p, n - 1);
      NextHeadNet(chart, closing, p, n);
    }
  }

  lemma {:induction false} HeadLinesDo(chart: seq<Account>, closing: int -> int, p: Kind -> bool, h: Head)
    ensures HeadDelta(HeadLines(chart, closing, p, |chart|), h)
         == if h.InBook? && 0 <= h.acct < |chart| && p(chart[h.acct].kind) then -closing(h.acct) else 0
    ensures CloseNet(HeadLines(chart, closing, p, |chart|)) == -KindTotal(chart, closing, p)
  {
    HeadLinesDelta(chart, closing, p, |chart|, h);
    HeadLinesNet(chart, closing, p, |chart|);
  }

  /** The amounts of the partners whose account is `i`. */
  function PaidTo(ps: seq<Partner>, amts: seq<int>, i: int): int
    requires |ps| == |amts|
  {
    if ps == [] then 0
    else PaidTo(ps[..|ps| - 1], amts[..|ps| - 1], i) + (if ps[|ps| - 1].current == i then amts[|ps| - 1] else 0)
  }

  lemma {:induction false} PartnerLinesDo(ps: seq<Partner>, amts: seq<int>, h: Head)
    requires |ps| == |amts|
    ensures HeadDelta(PartnerLines(ps, amts), h) == if h.InBook? then -PaidTo(ps, amts, h.acct) else 0
    ensures CloseNet(PartnerLines(ps, amts)) == -Sum(amts)
  {
    if ps != [] {
      var k := |ps| - 1;
      PartnerLinesDo(ps[..k], amts[..k], h);
      assert PartnerLines(ps, amts)[..k] == PartnerLines(ps[..k], amts[..k]);
    }
  }

  lemma {:induction false} OneLine(l: CloseLine, h: Head)
    ensures HeadDelta([l], h) == if l.head == h then l.amt else 0
    ensures CloseNet([l]) == l.amt
  {
    assert [l][..0] == [];
  }

  lemma {:induction false} TwoLines(l: CloseLine, m: CloseLine, h: Head)
    ensures HeadDelta([l, m], h) == (if l.head == h then l.amt else 0) + (if m.head == h then m.amt else 0)
    ensures CloseNet([l, m]) == l.amt + m.amt
  {
    assert [l, m][..1] == [l];
    OneLine(l, h);
  }

  /** The shares and the interest together are the result. */
  lemma AppropriationIsTheResult(closing: int -> int, ps: seq<Partner>, result: int)
    requires Appropriation(closing, ps, result).Some?
    ensures |Appropriation(closing, ps, result).value| == |ps|
    ensures Sum(Interests(closing, ps)) + Sum(Appropriation(closing, ps, result).value) == result
  {
    var rest := result - Sum(Interests(closing, ps));
    assert Appropriation(closing, ps, result) == Some(Shares(rest, Ratio(ps)));
    SharesAddUp(rest, Ratio(ps));
  }

  /** The heads of one kind and the line that takes their total to the result account. */
  lemma {:induction false} HeadsToResult(chart: seq<Account>, closing: int -> int, p: Kind -> bool, l: CloseLine,
      h: Head)
    requires l == CloseLine(ResultAc, KindTotal(chart, closing, p))
    ensures var heads := HeadLines(chart, closing, p, |chart|);
      && CloseNet(heads + [l]) == 0 && CloseNet([l] + heads) == 0
      && HeadDelta(heads + [l], h) == HeadDelta([l] + heads, h) ==
         (if h.InBook? && 0 <= h.acct < |chart| && p(chart[h.acct].kind) then -closing(h.acct) else 0)
         + (if h.ResultAc? then KindTotal(chart, closing, p) else 0)
  {
    var heads := HeadLines(chart, closing, p, |chart|);
    HeadLinesDo(chart, closing, p, h);
    OneLine(l, h);
    HeadDeltaConcat(heads, [l], h);
    HeadDeltaConcat([l], heads, h);
  }

  lemma {:induction false} HeadEntriesDo(chart: seq<Account>, closing: int -> int, h: Head)
    ensures AllNil(HeadEntries(chart, closing))
    ensures Closed(HeadEntries(chart, closing), h) ==
         (if h.InBook? && 0 <= h.acct < |chart| && !IsBs(chart[h.acct].kind) then -closing(h.acct) else 0)
         - (if h.ResultAc? then Result(chart, closing) else 0)
  {
    var n := |chart|;
    var l1 := CloseLine(ResultAc, KindTotal(chart, closing, IsIncome));
    var l2 := CloseLine(ResultAc, KindTotal(chart, closing, IsExpense));
    var inc, exp := HeadLines(chart, closing, IsIncome, n) + [l1], [l2] + HeadLines(chart, closing, IsExpense, n);
    assert HeadEntries(chart, closing) == EntryOf(inc) + EntryOf(exp);
    HeadsToResult(chart, closing, IsIncome, l1, h);
    HeadsToResult(chart, closing, IsExpense, l2, h);
    EntryDoes(inc, h);
    EntryDoes(exp, h);
    GroupsDo(EntryOf(inc), EntryOf(exp), h);
  }

  lemma {:induction false} TakenEntryDoes(chart: seq<Account>, closing: int -> int, own: nat, p: Kind -> bool, h: Head)
    ensures AllNil(TakenEntry(chart, closing, own, p))
    ensures Closed(TakenEntry(chart, closing, own, p), h) ==
         (if h == InBook(own) then KindTotal(chart, closing, p) else 0)
         + (if h.InBook? && 0 <= h.acct < |chart| && p(chart[h.acct].kind) then -closing(h.acct) else 0)
  {
    var l := CloseLine(InBook(own), KindTotal(chart, closing, p));
    var heads := HeadLines(chart, closing, p, |chart|);
    HeadLinesDo(chart, closing, p, h);
    OneLine(l, h);
    HeadDeltaConcat([l], heads, h);
    EntryDoes([l] + heads, h);
  }

  lemma {:induction false} PaidEntryDoes(ps: seq<Partner>, amts: seq<int>, h: Head)
    requires |ps| == |amts|
    ensures AllNil(PaidEntry(ps, amts))
    ensures Closed(PaidEntry(ps, amts), h) ==
         if h.AppropriationAc? then Sum(amts) else if h.InBook? then -PaidTo(ps, amts, h.acct) else 0
  {
    var l := CloseLine(AppropriationAc, Sum(amts));
    PartnerLinesDo(ps, amts, h);
    OneLine(l, h);
    HeadDeltaConcat([l], PartnerLines(ps, amts), h);
    EntryDoes([l] + PartnerLines(ps, amts), h);
  }

  lemma {:induction false} PartnerEntriesDo(ps: seq<Partner>, result: int, interests: seq<int>, shares: seq<int>,
      h: Head)
    requires |ps| == |interests| == |shares|
    ensures AllNil(PartnerEntries(ps, result, interests, shares))
    ensures Closed(PartnerEntries(ps, result, interests, shares), h) ==
      match h
      case ResultAc => result
      case AppropriationAc => Sum(interests) + Sum(shares) - result
      case InBook(i) => -PaidTo(ps, interests, i) - PaidTo(ps, shares, i)
  {
    var l1, l2 := CloseLine(ResultAc, result), CloseLine(AppropriationAc, -result);
    TwoLines(l1, l2, h);
    EntryDoes([l1, l2], h);
    PaidEntryDoes(ps, interests, h);
    PaidEntryDoes(ps, shares, h);
    GroupsDo(EntryOf([l1, l2]), PaidEntry(ps, interests), h);
    GroupsDo(EntryOf([l1, l2]) + PaidEntry(ps, interests), PaidEntry(ps, shares), h);
  }

  lemma {:induction false} OwnerEntriesDo(chart: seq<Account>, closing: int -> int, own: nat, result: int, h: Head)
    ensures AllNil(OwnerEntries(chart, closing, own, result))
    ensures Closed(OwnerEntries(chart, closing, own, result), h) ==
         (if h.ResultAc? then result else 0)
         + (if h == InBook(own) then KindTotal(chart, closing, IsTakenHead) - result else 0)
         + (if h.InBook? && 0 <= h.acct < |chart| && IsTakenHead(chart[h.acct].kind) then -closing(h.acct) else 0)
  {
    var l1, l2 := CloseLine(ResultAc, result), CloseLine(InBook(own), -result);
    var e, dw, so := EntryOf([l1, l2]), TakenEntry(chart, closing, own, IsDrawings),
      TakenEntry(chart, closing, own, IsShareOut);
    TwoLines(l1, l2, h);
    EntryDoes([l1, l2], h);
    TakenEntryDoes(chart, closing, own, IsDrawings, h);
    TakenEntryDoes(chart, closing, own, IsShareOut, h);
    KindTotalSplit(chart, closing, IsDrawings, IsShareOut, IsTakenHead);
    GroupsDo(e, dw, h);
    GroupsDo(e + dw, so, h);
  }

  function Added(a: seq<int>, b: seq<int>): seq<int>
    requires |a| == |b|
  {
    seq(|a|, k requires 0 <= k < |a| => a[k] + b[k])
  }

  lemma {:induction false} SumOfAdded(a: seq<int>, b: seq<int>)
    requires |a| == |b|
    ensures Sum(Added(a, b)) == Sum(a) + Sum(b)
  {
    if a != [] {
      var k := |a| - 1;
      SumOfAdded(a[..k], b[..k]);
      assert Added(a, b)[..k] == Added(a[..k], b[..k]);
    }
  }

  lemma {:induction false} PaidToAdded(ps: seq<Partner>, a: seq<int>, b: seq<int>, i: int)
    requires |ps| == |a| == |b|
    ensures PaidTo(ps, Added(a, b), i) == PaidTo(ps, a, i) + PaidTo(ps, b, i)
  {
    if ps != [] {
      var k := |ps| - 1;
      PaidToAdded(ps[..k], a[..k], b[..k], i);
      assert Added(a, b)[..k] == Added(a[..k], b[..k]);
    }
  }

  /** What each partner gets: his interest and his share. */
  function PartnerPay(chart: seq<Account>, ps: seq<Partner>, closing: int -> int): (pay: seq<int>)
    requires ps != [] && CanClose(chart, ps, closing)
    ensures |pay| == |ps|
  {
    Added(Interests(closing, ps), Appropriation(closing, ps, Result(chart, closing)).value)
  }

  lemma PayIsNotNegative(chart: seq<Account>, ps: seq<Partner>, closing: int -> int, k: nat)
    requires ps != [] && CanClose(chart, ps, closing) && k < |ps|
    ensures PartnerPay(chart, ps, closing)[k] >= 0
  {
    var rest := Result(chart, closing) - Sum(Interests(closing, ps));
    PayIsInterestAndShare(chart, ps, closing, rest, k);
    SharesAreNotNegative(rest, Ratio(ps), k);
    InterestAt(closing, ps, k);
  }

  lemma InterestAt(closing: int -> int, ps: seq<Partner>, k: nat)
    requires k < |ps|
    ensures Interests(closing, ps)[k] == Interest(closing, ps[k]) >= 0
  {
  }

  lemma AddedAt(a: seq<int>, b: seq<int>, k: nat)
    requires k < |a| == |b|
    ensures Added(a, b)[k] == a[k] + b[k]
  {
  }

  lemma PayIsInterestAndShare(chart: seq<Account>, ps: seq<Partner>, closing: int -> int, rest: int, k: nat)
    requires ps != [] && CanClose(chart, ps, closing) && k < |ps|
    requires rest == Result(chart, closing) - Sum(Interests(closing, ps))
    ensures rest > 0 && Weight(Ratio(ps)) > 0
    ensures PartnerPay(chart, ps, closing)[k] == Interests(closing, ps)[k] + Shares(rest, Ratio(ps))[k]
  {
    AddedAt(Interests(closing, ps), Shares(rest, Ratio(ps)), k);
  }

  /** Together they get the whole result, and nobody pays in. */
  lemma {:induction false} PartnerPayIsTheResult(chart: seq<Account>, ps: seq<Partner>, closing: int -> int)
    requires ps != [] && CanClose(chart, ps, closing)
    ensures Sum(PartnerPay(chart, ps, closing)) == Result(chart, closing)
    ensures forall k :: 0 <= k < |ps| ==> PartnerPay(chart, ps, closing)[k] >= 0
  {
    var result := Result(chart, closing);
    var interests, shares := Interests(closing, ps), Appropriation(closing, ps, result).value;
    AppropriationIsTheResult(closing, ps, result);
    SumOfAdded(interests, shares);
    forall k | 0 <= k < |ps| ensures PartnerPay(chart, ps, closing)[k] >= 0 {
      PayIsNotNegative(chart, ps, closing, k);
    }
  }

  // ------------------------------------------------------------------ each partner's pay, by his agreed terms

  /** The agreed shares, added up. */
  function AllShares(ps: seq<Partner>): nat {
    if ps == [] then 0 else AllShares(ps[..|ps| - 1]) + ps[|ps| - 1].share
  }

  lemma {:induction false} AllSharesAreTheWeight(ps: seq<Partner>)
    ensures Weight(Ratio(ps)) == AllShares(ps)
  {
    if ps != [] {
      AllSharesAreTheWeight(ps[..|ps| - 1]);
      assert Ratio(ps)[..|ps| - 1] == Ratio(ps[..|ps| - 1]);
    }
  }

  /** Interest on a capital account in credit, to the nearest paisa at so many hundredths of a percent; else nil. */
  predicate IsInterest(closing: int -> int, p: Partner, x: int) {
    if p.capital.Some? && closing(p.capital.value) < 0 then
      var exact := -closing(p.capital.value) * p.iocBp;
      2 * exact - 10000 < 20000 * x <= 2 * exact + 10000
    else x == 0
  }

  predicate AreInterests(closing: int -> int, ps: seq<Partner>, xs: seq<int>) {
    if ps == [] then xs == []
    else
      var k := |ps| - 1;
      |xs| == |ps| && AreInterests(closing, ps[..k], xs[..k]) && IsInterest(closing, ps[k], xs[k])
  }

  lemma InterestByItsTerms(closing: int -> int, p: Partner, x: int)
    ensures IsInterest(closing, p, x) <==> x == Interest(closing, p)
  {
    if p.capital.Some? && closing(p.capital.value) < 0 {
      HalfUpIsNearest(-closing(p.capital.value) * p.iocBp, 10000, x);
    }
  }

  /** There is one such list of interests, and it is what the appropriation takes. */
  lemma {:induction false} InterestsByTheirTerms(closing: int -> int, ps: seq<Partner>, xs: seq<int>)
    ensures AreInterests(closing, ps, xs) <==> xs == Interests(closing, ps)
  {
    if ps != [] && |xs| == |ps| {
      var k := |ps| - 1;
      InterestsByTheirTerms(closing, ps[..k], xs[..k]);
      InterestByItsTerms(closing, ps[k], xs[k]);
      assert Interests(closing, ps)[..k] == Interests(closing, ps[..k]);
      assert xs == xs[..k] + [xs[k]];
      assert Interests(closing, ps) == Interests(closing, ps[..k]) + [Interest(closing, ps[k])];
    }
  }

  /** The partner with the largest share, the earliest listed of them. */
  predicate TakesTheRest(ps: seq<Partner>, k: nat)
    requires k < |ps|
  {
    && (forall j :: 0 <= j < |ps| ==> ps[j].share <= ps[k].share)
    && (forall j :: 0 <= j < k ==> ps[j].share < ps[k].share)
  }

  /** Of `rest`, after interest, a partner is short of his agreed part by less than a paisa. */
  predicate IsHisPart(ps: seq<Partner>, k: nat, rest: int, part: int)
    requires k < |ps|
  {
    0 <= rest * ps[k].share - part * AllShares(ps) < AllShares(ps)
  }

  predicate PartsAreHeld(ps: seq<Partner>, rest: int, xs: seq<int>, pay: seq<int>)
    requires |xs| == |ps| == |pay|
  {
    forall k :: 0 <= k < |ps| && !TakesTheRest(ps, k) ==> IsHisPart(ps, k, rest, pay[k] - xs[k])
  }

  lemma {:induction false} ChosenHasTheLargest(ps: seq<Partner>)
    requires ps != []
    ensures TakesTheRest(ps, Chosen(Ratio(ps)))
  {
    ChosenIsEarliestLargest(Ratio(ps));
    assert forall j :: 0 <= j < |ps| ==> ps[j].share == Ratio(ps)[j];
  }

  lemma {:induction false} OnePartnersPart(ps: seq<Partner>, rest: nat, k: nat)
    requires AllShares(ps) > 0 && k < |ps| && !TakesTheRest(ps, k)
    ensures Weight(Ratio(ps)) > 0 && IsHisPart(ps, k, rest, Shares(rest, Ratio(ps))[k])
  {
    AllSharesAreTheWeight(ps);
    ChosenHasTheLargest(ps);
    OthersAreShortByLessThanAPaisa(rest, Ratio(ps), k);
  }

  lemma {:induction false} PayInParts(chart: seq<Account>, ps: seq<Partner>, closing: int -> int, rest: int, k: nat,
      x: int, pay: int)
    requires ps != [] && CanClose(chart, ps, closing) && k < |ps| && !TakesTheRest(ps, k)
    requires rest == Result(chart, closing) - Sum(Interests(closing, ps))
    requires x == Interests(closing, ps)[k] && pay == PartnerPay(chart, ps, closing)[k]
    ensures IsHisPart(ps, k, rest, pay - x)
  {
    AllSharesAreTheWeight(ps);
    PayIsInterestAndShare(chart, ps, closing, rest, k);
    PartBesideInterest(ps, rest, k, x, pay);
  }

  lemma {:induction false} PartBesideInterest(ps: seq<Partner>, rest: nat, k: nat, x: int, pay: int)
    requires AllShares(ps) > 0 && k < |ps| && !TakesTheRest(ps, k)
    requires Weight(Ratio(ps)) > 0 && pay == x + Shares(rest, Ratio(ps))[k]
    ensures IsHisPart(ps, k, rest, pay - x)
  {
    OnePartnersPart(ps, rest, k);
  }

  /** The appropriation pays the partners what they agreed: whatever list `xs` holds everyone's interest by its terms, a
      partner gets his and his part of the rest; what is left of the result is for the one with the largest share. */
  lemma {:induction false} PartnersGetTheirPay(chart: seq<Account>, ps: seq<Partner>, closing: int -> int,
      xs: seq<int>, k: nat)
    requires ps != [] && CanClose(chart, ps, closing) && AreInterests(closing, ps, xs) && k < |ps| == |xs|
    ensures !TakesTheRest(ps, k) ==>
      IsHisPart(ps, k, Result(chart, closing) - Sum(xs), PartnerPay(chart, ps, closing)[k] - xs[k])
  {
    InterestsByTheirTerms(closing, ps, xs);
    if !TakesTheRest(ps, k) {
      var rest, pay := Result(chart, closing) - Sum(xs), PartnerPay(chart, ps, closing)[k];
      PayInParts(chart, ps, closing, rest, k, xs[k], pay);
    }
  }

  lemma OnePart(ps: seq<Partner>, k: nat, rest: int, part: int, other: int)
    requires k < |ps| && IsHisPart(ps, k, rest, part) && IsHisPart(ps, k, rest, other)
    ensures part == other
  {
    DivUnique(rest * ps[k].share, AllShares(ps), part);
    DivUnique(rest * ps[k].share, AllShares(ps), other);
  }

  lemma {:induction false} SumsDifferAt(a: seq<int>, b: seq<int>, c: nat)
    requires |a| == |b| && c < |a| && forall k :: 0 <= k < |a| && k != c ==> a[k] == b[k]
    ensures Sum(a) - Sum(b) == a[c] - b[c]
  {
    SumUpdate(a, c, b[c]);
    assert a[c := b[c]] == b;
  }

  /** These terms leave one payment only. */
  lemma {:induction false} OnePayByTheTerms(ps: seq<Partner>, rest: int, xs: seq<int>, pay: seq<int>, other: seq<int>)
    requires |xs| == |ps| == |pay| == |other| && Sum(pay) == Sum(other)
    requires PartsAreHeld(ps, rest, xs, pay) && PartsAreHeld(ps, rest, xs, other)
    ensures pay == other
  {
    forall k | 0 <= k < |ps| && !TakesTheRest(ps, k) ensures pay[k] == other[k] {
      OnePart(ps, k, rest, pay[k] - xs[k], other[k] - xs[k]);
    }
    if ps != [] {
      var c := Chosen(Ratio(ps));
      ChosenHasTheLargest(ps);
      assert forall k :: 0 <= k < |ps| && k != c ==> !TakesTheRest(ps, k);
      SumsDifferAt(pay, other, c);
    }
  }

  /** What the close pays into one account: to the partners' accounts by the appropriation, or to own money. */
  function PaidIn(chart: seq<Account>, ps: seq<Partner>, closing: int -> int, i: int): int {
    var result := Result(chart, closing);
    if ps != [] then
      var shares := Appropriation(closing, ps, result);
      if shares.Some? then PaidTo(ps, Added(Interests(closing, ps), shares.value), i) else 0
    else if OwnerAccount(chart) == Some(i) then result - KindTotal(chart, closing, IsTakenHead)
    else 0
  }

  /** The heads this book's close brings to nil: a partnership's close leaves drawings heads alone. */
  predicate ClosesKind(ps: seq<Partner>, k: Kind) {
    !IsBs(k) || (ps == [] && IsTakenHead(k))
  }

  lemma {:induction false} PaidInIsPay(chart: seq<Account>, ps: seq<Partner>, closing: int -> int, i: int)
    requires ps != [] && CanClose(chart, ps, closing)
    ensures PaidIn(chart, ps, closing, i) == PaidTo(ps, PartnerPay(chart, ps, closing), i)
  {
  }

  lemma {:induction false} PartnersCloseDoes(chart: seq<Account>, ps: seq<Partner>, closing: int -> int, h: Head)
    requires ps != [] && CanClose(chart, ps, closing)
    ensures var es := CloseEntries(chart, ps, closing).value;
      && AllNil(es)
      && Closed(es, h) ==
         if !h.InBook? then 0
         else (if 0 <= h.acct < |chart| && !IsBs(chart[h.acct].kind) then -closing(h.acct) else 0)
              - PaidIn(chart, ps, closing, h.acct)
  {
    var result, heads := Result(chart, closing), HeadEntries(chart, closing);
    var interests, shares := Interests(closing, ps), Appropriation(closing, ps, result).value;
    HeadEntriesDo(chart, closing, h);
    AppropriationIsTheResult(closing, ps, result);
    PartnerEntriesDo(ps, result, interests, shares, h);
    var paid := PartnerEntries(ps, result, interests, shares);
    GroupsDo(heads, paid, h);
    assert CloseEntries(chart, ps, closing).value == heads + paid;
    if h.InBook? {
      PaidToAdded(ps, interests, shares, h.acct);
    }
  }

  lemma OwnerCloseIs(chart: seq<Account>, closing: int -> int)
    requires CanClose(chart, [], closing)
    ensures var result, own := Result(chart, closing), OwnerAccount(chart).value;
      && CloseEntries(chart, [], closing).value
        == HeadEntries(chart, closing) + OwnerEntries(chart, closing, own, result)
      && forall i ::
           PaidIn(chart, [], closing, i) == if i == own then result - KindTotal(chart, closing, IsTakenHead) else 0
  {
  }

  lemma {:induction false} OwnerCloseDoes(chart: seq<Account>, closing: int -> int, h: Head)
    requires CanClose(chart, [], closing)
    ensures var es := CloseEntries(chart, [], closing).value;
      && AllNil(es)
      && Closed(es, h) ==
         if !h.InBook? then 0
         else (if 0 <= h.acct < |chart| && IsClosedKind(chart[h.acct].kind) then -closing(h.acct) else 0)
              - PaidIn(chart, [], closing, h.acct)
  {
    OwnerCloseIs(chart, closing);
    HeadAndOwnerEntriesDo(chart, closing, OwnerAccount(chart).value, Result(chart, closing), h);
  }

  lemma {:induction false} HeadAndOwnerEntriesDo(chart: seq<Account>, closing: int -> int, own: nat, result: int,
      h: Head)
    requires result == Result(chart, closing)
    ensures var es := HeadEntries(chart, closing) + OwnerEntries(chart, closing, own, result);
      && AllNil(es)
      && Closed(es, h) ==
         if !h.InBook? then 0
         else (if 0 <= h.acct < |chart| && IsClosedKind(chart[h.acct].kind) then -closing(h.acct) else 0)
              - (if h.acct == own then result - KindTotal(chart, closing, IsTakenHead) else 0)
  {
    HeadEntriesDo(chart, closing, h);
    OwnerEntriesDo(chart, closing, own, result, h);
    GroupsDo(HeadEntries(chart, closing), OwnerEntries(chart, closing, own, result), h);
  }

  /** Every entry of the close is a double entry; the result and appropriation accounts end at nil; and each
      account of the chart ends at nil or where it stood, plus what the close pays into it. */
  lemma {:induction false} CloseDoes(chart: seq<Account>, ps: seq<Partner>, closing: int -> int, h: Head)
    requires CanClose(chart, ps, closing)
    ensures var es := CloseEntries(chart, ps, closing).value;
      && AllNil(es)
      && (!h.InBook? ==> Closed(es, h) == 0)
      && (h.InBook? && 0 <= h.acct < |chart| ==>
            PostClose(closing, es)(h.acct) ==
            (if ClosesKind(ps, chart[h.acct].kind) then 0 else closing(h.acct)) - PaidIn(chart, ps, closing, h.acct))
  {
    if ps != [] {
      PartnersCloseDoes(chart, ps, closing, h);
    } else {
      OwnerCloseDoes(chart, closing, h);
    }
  }

  lemma {:induction false} PaidAlone(ps: seq<Partner>, amts: seq<int>, k: nat)
    requires |ps| == |amts| && k < |ps|
    requires forall j :: 0 <= j < |ps| && j != k ==> ps[j].current != ps[k].current
    ensures PaidTo(ps, amts, ps[k].current) == amts[k]
    decreases |ps|
  {
    var last := |ps| - 1;
    if k < last {
      PaidAlone(ps[..last], amts[..last], k);
    } else {
      NotPaidTo(ps[..last], amts[..last], ps[k].current);
    }
  }

  lemma {:induction false} NotPaidTo(ps: seq<Partner>, amts: seq<int>, i: int)
    requires |ps| == |amts| && forall j :: 0 <= j < |ps| ==> ps[j].current != i
    ensures PaidTo(ps, amts, i) == 0
  {
    if ps != [] {
      NotPaidTo(ps[..|ps| - 1], amts[..|ps| - 1], i);
    }
  }

  /** Partner `k` has an account to himself, and it is no income or expense head. */
  predicate HasOwnAccount(chart: seq<Account>, ps: seq<Partner>, k: nat)
    requires k < |ps|
  {
    && (forall j :: 0 <= j < |ps| && j != k ==> ps[j].current != ps[k].current)
    && (ps[k].current < |chart| ==> IsBs(chart[ps[k].current].kind))
  }

  /** What the lines of some entries credit to an account. */
  function Credited(es: seq<seq<CloseLine>>, i: int): int {
    -Closed(es, InBook(i))
  }

  /** The close's lines credit to a partner's own account what he gets. */
  lemma {:induction false} CreditedIsPay(chart: seq<Account>, ps: seq<Partner>, closing: int -> int, k: nat)
    requires CanClose(chart, ps, closing) && k < |ps| && HasOwnAccount(chart, ps, k)
    ensures Credited(CloseEntries(chart, ps, closing).value, ps[k].current) == PartnerPay(chart, ps, closing)[k]
  {
    PartnersCloseDoes(chart, ps, closing, InBook(ps[k].current));
    PaidInIsPay(chart, ps, closing, ps[k].current);
    PaidAlone(ps, PartnerPay(chart, ps, closing), k);
  }

  lemma {:induction false} CreditedAreTheirPay(chart: seq<Account>, ps: seq<Partner>, closing: int -> int)
    requires CanClose(chart, ps, closing)
    ensures forall k :: 0 <= k < |ps| && HasOwnAccount(chart, ps, k) ==>
      Credited(CloseEntries(chart, ps, closing).value, ps[k].current) == PartnerPay(chart, ps, closing)[k]
  {
    forall k | 0 <= k < |ps| && HasOwnAccount(chart, ps, k)
      ensures Credited(CloseEntries(chart, ps, closing).value, ps[k].current) == PartnerPay(chart, ps, closing)[k]
    {
      CreditedIsPay(chart, ps, closing, k);
    }
  }
}
