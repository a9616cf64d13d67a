/** The daily balance series of an account, the partner interest read from it, and the one entry that appropriates a
    year's profit or loss. */
module DailySeries {
  import opened Arith
  import opened Totals
  import opened Lines
  import opened Sharing
  import opened EventLog

  /** Entries of the year up to a day, some tags left out. */
  function InYearUpto(exclude: set<Tag>, day: int): Entry -> bool {
    (e: Entry) => IsHead(e) && e.tag !in exclude && FY_START <= e.date <= day
  }

  function OnDay(exclude: set<Tag>, day: int): Entry -> bool {
    (e: Entry) => IsHead(e) && e.tag !in exclude && e.date == day
  }

  /** Everything that counts up to a day: what a balance is recomputed from. */
  function Upto(exclude: set<Tag>, day: int): Entry -> bool {
    (e: Entry) => IsHead(e) && e.tag !in exclude && e.date <= day
  }

  function BeforeYear(exclude: set<Tag>): Entry -> bool {
    (e: Entry) => IsHead(e) && e.tag !in exclude && e.date < FY_START
  }

  lemma {:induction false} TotalSplit(log: Log, p: Entry -> bool, q: Entry -> bool, r: Entry -> bool, a: int)
    requires forall k :: 0 <= k < |log| ==> (r(log[k]) <==> p(log[k]) || q(log[k])) && !(p(log[k]) && q(log[k]))
    ensures Total(log, r, a) == Total(log, p, a) + Total(log, q, a)
  {
    if log != [] {
      TotalSplit(log[..|log| - 1], p, q, r, a);
    }
  }

  function At(byDay: map<int, int>, day: int): int {
    if day in byDay then byDay[day] else 0
  }

  /** What each day moves the account by, collected in one pass over the log. */
  method ByDay(log: Log, a: nat, exclude: set<Tag>) returns (byDay: map<int, int>)
    ensures forall day :: At(byDay, day) == Total(log, OnDay(exclude, day), a)
  {
    byDay := map[];
    for k := 0 to |log|
      invariant forall day :: At(byDay, day) == Total(log[..k], OnDay(exclude, day), a)
    {
      assert log[..k + 1][..k] == log[..k];
      var e := log[k];
      if IsHead(e) && e.tag !in exclude {
        ghost var before := byDay;
        assert Delta(e.lines[..0], a) == 0;
        for j := 0 to |e.lines|
          invariant forall day ::
            At(byDay, day) == At(before, day) + (if day == e.date then Delta(e.lines[..j], a) else 0)
        {
          assert e.lines[..j + 1][..j] == e.lines[..j];
          if e.lines[j].acct == a {
            byDay := byDay[e.date := At(byDay, e.date) + e.lines[j].amt];
          }
        }
        assert e.lines[..|e.lines|] == e.lines;
      }
    }
    assert log[..|log|] == log;
  }

  /** The end-of-day balance of every day of the year, each from the day before. */
  method DailyBalanceSeries(log: Log, a: nat, exclude: set<Tag>) returns (out: seq<int>)
    ensures |out| == FY_END
    ensures forall day :: FY_START <= day <= FY_END ==> out[day - 1] == Total(log, InYearUpto(exclude, day), a)
  {
    var byDay := ByDay(log, a, exclude);
    out := [];
    var bal := 0;
    TotalOfNone(log, InYearUpto(exclude, FY_START - 1), a);
    for day := FY_START to FY_END + 1
      invariant |out| == day - 1
      invariant bal == Total(log, InYearUpto(exclude, day - 1), a)
      invariant forall d :: FY_START <= d < day ==> out[d - 1] == Total(log, InYearUpto(exclude, d), a)
    {
      TotalSplit(log, InYearUpto(exclude, day - 1), OnDay(exclude, day), InYearUpto(exclude, day), a);
      bal := bal + At(byDay, day);
      out := out + [bal];
    }
  }

  lemma {:induction false} TotalOfNone(log: Log, p: Entry -> bool, a: int)
    requires forall k :: 0 <= k < |log| ==> !p(log[k])
    ensures Total(log, p, a) == 0
  {
    if log != [] {
      TotalOfNone(log[..|log| - 1], p, a);
    }
  }

  /** The running series is the balance recomputed from every entry so far exactly when nothing dated before the year
      stands on the account. */
  lemma {:induction false} SeriesIsRecomputation(log: Log, a: int, exclude: set<Tag>, day: int)
    requires FY_START <= day
    ensures Total(log, InYearUpto(exclude, day), a) == Total(log, Upto(exclude, day), a)
         <==> Total(log, BeforeYear(exclude), a) == 0
  {
    TotalSplit(log, InYearUpto(exclude, day), BeforeYear(exclude), Upto(exclude, day), a);
  }

  // ------------------------------------------------------------------ interest on credit days

  /** The Cr balances of the days; Dr days earn nothing. */
  function CreditSum(series: seq<int>): nat {
    if series == [] then 0 else CreditSum(series[..|series| - 1]) + Max0(-series[|series| - 1])
  }

  const DAY_BASIS := 3650000

  /** Interest at `rateBp` on an actual/365 basis, half-up to the paisa. */
  function InterestOf(creditSum: nat, rateBp: nat): nat {
    HalfUp(creditSum * rateBp, DAY_BASIS)
  }

  /** Interest on a sum of credit balances over days, in paise: to the nearest, half a paisa up, at so many hundredths
      of a percent a year of 365 days. */
  predicate IsInterest(x: int, creditSum: nat, rateBp: nat) {
    2 * (creditSum * rateBp) - 3650000 < 7300000 * x <= 2 * (creditSum * rateBp) + 3650000
  }

  lemma InterestIsNearest(creditSum: nat, rateBp: nat, x: int)
    ensures x == InterestOf(creditSum, rateBp) <==> IsInterest(x, creditSum, rateBp)
  {
    HalfUpIsNearest(creditSum * rateBp, DAY_BASIS, x);
  }

  method PartnerInterest(log: Log, partners: seq<nat>, rateBp: nat) returns (out: seq<nat>)
    ensures |out| == |partners|
    ensures forall k :: 0 <= k < |partners| ==> out[k] == InterestOf(CreditTotal(log, partners[k], FY_END), rateBp)
    ensures forall k :: 0 <= k < |partners| ==> IsInterest(out[k], CreditTotal(log, partners[k], 365), rateBp)
  {
    out := [];
    for k := 0 to |partners|
      invariant |out| == k
      invariant forall j :: 0 <= j < k ==> out[j] == InterestOf(CreditTotal(log, partners[j], FY_END), rateBp)
    {
      var series := DailyBalanceSeries(log, partners[k], {Distribution});
      var s := 0;
      for d := 0 to |series|
        invariant s == CreditSum(series[..d])
      {
        assert series[..d + 1][..d] == series[..d];
        if series[d] < 0 {
          s := s - series[d];
        }
      }
      assert series[..|series|] == series;
      SeriesCredit(log, partners[k], series);
      out := out + [HalfUp(s * rateBp, DAY_BASIS)];
    }
    forall k | 0 <= k < |partners| ensures IsInterest(out[k], CreditTotal(log, partners[k], 365), rateBp) {
      InterestIsNearest(CreditTotal(log, partners[k], 365), rateBp, out[k]);
    }
  }

  /** So much in credit on every day of the year: a year's interest on it at the rate, and nothing else. */
  lemma {:induction false} SteadyCreditEarnsTheRate(log: Log, a: int, credit: nat, rateBp: nat)
    requires forall day :: 1 <= day <= 365 ==> Total(log, InYearUpto({Distribution}, day), a) + credit == 0
    ensures var x := InterestOf(CreditTotal(log, a, 365), rateBp);
      2 * (credit * rateBp) - 10000 < 20000 * x <= 2 * (credit * rateBp) + 10000
  {
    SteadyCredit(log, a, credit, 365);
    InterestIsNearest(CreditTotal(log, a, 365), rateBp, InterestOf(CreditTotal(log, a, 365), rateBp));
    TimesInRow(365, credit, rateBp);
  }

  lemma TimesInRow(days: int, credit: int, rateBp: int)
    ensures days * credit * rateBp == days * (credit * rateBp)
  {
  }

  lemma {:induction false} SteadyCredit(log: Log, a: int, credit: nat, days: nat)
    requires forall day :: 1 <= day <= days ==> Total(log, InYearUpto({Distribution}, day), a) + credit == 0
    ensures CreditTotal(log, a, days) == days * credit
  {
    if days > 0 {
      SteadyCredit(log, a, credit, days - 1);
      Distribute(days - 1, 1, credit);
    }
  }

  /** The Cr balances of the first `days` days, each recomputed from the log. */
  function CreditTotal(log: Log, a: int, days: nat): nat {
    if days == 0 then 0
    else CreditTotal(log, a, days - 1) + Max0(-Total(log, InYearUpto({Distribution}, days), a))
  }

  lemma {:induction false} SeriesPrefixCredit(log: Log, a: int, series: seq<int>, days: nat)
    requires days <= |series|
    requires forall day :: FY_START <= day <= |series| ==>
         series[day - 1] == Total(log, InYearUpto({Distribution}, day), a)
    ensures CreditSum(series[..days]) == CreditTotal(log, a, days)
  {
    if days > 0 {
      SeriesPrefixCredit(log, a, series, days - 1);
      assert series[..days][..days - 1] == series[..days - 1];
    }
  }

  lemma {:induction false} SeriesCredit(log: Log, a: int, series: seq<int>)
    requires |series| == FY_END
    requires forall day :: FY_START <= day <= FY_END ==>
         series[day - 1] == Total(log, InYearUpto({Distribution}, day), a)
    ensures CreditSum(series) == CreditTotal(log, a, FY_END)
  {
    SeriesPrefixCredit(log, a, series, FY_END);
    assert series[..FY_END] == series;
  }

  /** The validator's figure: the Cr balances of the days, each recomputed from every entry so far. */
  function CreditRecomputed(log: Log, a: int, days: nat): nat {
    if days == 0 then 0
    else CreditRecomputed(log, a, days - 1) + Max0(-Total(log, Upto({Distribution}, days), a))
  }

  /** The account is in credit on no day, neither in the series nor in the recomputation. */
  predicate NeverInCredit(log: Log, a: int, days: nat) {
    forall day :: FY_START <= day <= days ==>
      Total(log, InYearUpto({Distribution}, day), a) >= 0 && Total(log, Upto({Distribution}, day), a) >= 0
  }

  /** What stood on the account before the year. */
  function BroughtIn(log: Log, a: int): int {
    Total(log, BeforeYear({Distribution}), a)
  }

  /** The two sums over credit days are the same exactly when nothing dated before the year stands on the account, or it
      is never in credit; a Cr balance from before the year can only raise the validator's sum, a Dr balance only lower
      it. */
  lemma {:induction false} CreditSumsAgreeExactly(log: Log, a: int, days: nat)
    ensures CreditTotal(log, a, days) == CreditRecomputed(log, a, days)
       <==> BroughtIn(log, a) == 0 || NeverInCredit(log, a, days)
    ensures BroughtIn(log, a) <= 0 ==> CreditTotal(log, a, days) <= CreditRecomputed(log, a, days)
    ensures BroughtIn(log, a) >= 0 ==> CreditTotal(log, a, days) >= CreditRecomputed(log, a, days)
  {
    if days > 0 {
      CreditSumsAgreeExactly(log, a, days - 1);
      var series, all := Total(log, InYearUpto({Distribution}, days), a), Total(log, Upto({Distribution}, days), a);
      TotalSplit(log, InYearUpto({Distribution}, days), BeforeYear({Distribution}), Upto({Distribution}, days), a);
      assert NeverInCredit(log, a, days) <==> NeverInCredit(log, a, days - 1) && series >= 0 && all >= 0;
    }
  }

  /** At the rate of one a day interest is the sum itself. */
  lemma InterestAtOneADay(creditSum: nat)
    ensures InterestOf(creditSum, DAY_BASIS) == creditSum
  {
    HalfUpIsNearest(creditSum * DAY_BASIS, DAY_BASIS, creditSum);
  }

  /** So the producer and the validator compute the same interest, whatever the rate, exactly then. */
  lemma InterestIsTheValidators(log: Log, a: int, days: nat)
    ensures (forall rateBp: nat ::
               InterestOf(CreditTotal(log, a, days), rateBp) == InterestOf(CreditRecomputed(log, a, days), rateBp))
       <==> BroughtIn(log, a) == 0 || NeverInCredit(log, a, days)
  {
    CreditSumsAgreeExactly(log, a, days);
    InterestAtOneADay(CreditTotal(log, a, days));
    InterestAtOneADay(CreditRecomputed(log, a, days));
  }

  /** So it is in every book that starts with the year. */
  lemma {:induction false} BookOfTheYear(log: Log, a: int, rateBp: nat)
    requires forall k :: 0 <= k < |log| ==> log[k].date >= FY_START
    ensures InterestOf(CreditTotal(log, a, FY_END), rateBp) == InterestOf(CreditRecomputed(log, a, FY_END), rateBp)
  {
    TotalOfNone(log, BeforeYear({Distribution}), a);
    CreditSumsAgreeExactly(log, a, FY_END);
  }

  /** One entry dated before the year, in a book that started then. */
  function EarlyLog(date: int, authored: int, amt: int): Log {
    [NewEntry(date, authored, [Line(0, amt), Line(1, -amt)], Plain)]
  }

  lemma {:induction false} OneEntryTotal(log: Log, p: Entry -> bool, a: int)
    requires |log| == 1
    ensures Total(log, p, a) == if p(log[0]) then Delta(log[0].lines, a) else 0
  {
    assert log[..0] == [];
  }

  lemma {:induction false} TwoLinesOn(ls: seq<Line>, a: int)
    requires |ls| == 2
    ensures Delta(ls, a) == (if ls[0].acct == a then ls[0].amt else 0) + (if ls[1].acct == a then ls[1].amt else 0)
  {
    OneLine(ls[0], a);
    assert ls[..1] == [ls[0]];
  }

  /** The series leaves such an entry out on every day, and its partner earns nothing on it, where the validator counts
      it on all of them. */
  lemma {:induction false} EarlyEntryIsLeftOut(log: Log, date: int, authored: int, amt: int, days: nat)
    requires log == EarlyLog(date, authored, amt) && date < FY_START && amt > 0
    ensures forall day :: FY_START <= day ==>
      Total(log, InYearUpto({Distribution}, day), 1) == 0 && Total(log, Upto({Distribution}, day), 1) == -amt
    ensures CreditTotal(log, 1, days) == 0 && CreditRecomputed(log, 1, days) == days * amt
  {
    TwoLinesOn(log[0].lines, 1);
    forall day | FY_START <= day
      ensures Total(log, InYearUpto({Distribution}, day), 1) == 0 && Total(log, Upto({Distribution}, day), 1) == -amt
    {
      OneEntryTotal(log, InYearUpto({Distribution}, day), 1);
      OneEntryTotal(log, Upto({Distribution}, day), 1);
    }
    if days > 0 {
      EarlyEntryIsLeftOut(log, date, authored, amt, days - 1);
      Distribute(days - 1, 1, amt);
    }
  }

  // ------------------------------------------------------------------ amounts by days remaining

  /** Each entry of the year by the days from its own to day `days`, both counted. */
  function ByDaysLeft(log: Log, a: int, days: int): int {
    if log == [] then 0
    else
      var e := log[|log| - 1];
      ByDaysLeft(log[..|log| - 1], a, days)
      + (if InYearUpto({Distribution}, days)(e) then Delta(e.lines, a) * (days - e.date + 1) else 0)
  }

  lemma {:induction false} OneMoreDay(log: Log, a: int, days: int)
    ensures ByDaysLeft(log, a, days) == ByDaysLeft(log, a, days - 1) + Total(log, InYearUpto({Distribution}, days), a)
  {
    if log != [] {
      var e := log[|log| - 1];
      OneMoreDay(log[..|log| - 1], a, days);
      Distribute(days - e.date, 1, Delta(e.lines, a));
    }
  }

  lemma {:induction false} NoDays(log: Log, a: int)
    ensures ByDaysLeft(log, a, FY_START - 1) == 0
  {
    if log != [] {
      NoDays(log[..|log| - 1], a);
    }
  }

  /** For an account never in debit the sum over credit days is the sum of its amounts by the days they remained. */
  lemma {:induction false} CreditDaysAreAmountsByDaysLeft(log: Log, a: int, days: nat)
    requires forall day :: FY_START <= day <= days ==> Total(log, InYearUpto({Distribution}, day), a) <= 0
    ensures CreditTotal(log, a, days) == -ByDaysLeft(log, a, days)
  {
    if days == 0 {
      NoDays(log, a);
    } else {
      CreditDaysAreAmountsByDaysLeft(log, a, days - 1);
      OneMoreDay(log, a, days);
    }
  }

  // ------------------------------------------------------------------ the appropriation entry

  function NonNil(ls: seq<Line>): seq<Line> {
    if ls == [] then []
    else if ls[|ls| - 1].amt != 0 then NonNil(ls[..|ls| - 1]) + [ls[|ls| - 1]]
    else NonNil(ls[..|ls| - 1])
  }

  function Credits(partners: seq<nat>, amts: seq<int>): seq<Line>
    requires |partners| == |amts|
  {
    seq(|partners|, k requires 0 <= k < |partners| => Line(partners[k], -amts[k]))
  }

  /** Profit Distributed against every partner's interest and share, in one entry. */
  function DistributionLines(pd: nat, net: int, partners: seq<nat>, interests: seq<int>, ws: seq<nat>): seq<Line>
    requires |partners| == |interests| == |ws| && Weight(ws) > 0
  {
    [Line(pd, net)] + NonNil(Credits(partners, interests))
      + NonNil(Credits(partners, SplitByRatio(net - Sum(interests), ws)))
  }

  lemma {:induction false} OneLine(l: Line, a: int)
    ensures Delta([l], a) == (if l.acct == a then l.amt else 0) && Net([l]) == l.amt
  {
    assert [l][..0] == [];
  }

  lemma {:induction false} NonNilKeeps(ls: seq<Line>, a: int)
    ensures Delta(NonNil(ls), a) == Delta(ls, a) && Net(NonNil(ls)) == Net(ls)
  {
    if ls != [] {
      NonNilKeeps(ls[..|ls| - 1], a);
      OneLine(ls[|ls| - 1], a);
      DeltaConcat(NonNil(ls[..|ls| - 1]), [ls[|ls| - 1]], a);
    }
  }

  lemma {:induction false} CreditsNet(partners: seq<nat>, amts: seq<int>)
    requires |partners| == |amts|
    ensures Net(Credits(partners, amts)) == -Sum(amts)
  {
    if partners != [] {
      var k := |partners| - 1;
      CreditsNet(partners[..k], amts[..k]);
      assert Credits(partners, amts)[..k] == Credits(partners[..k], amts[..k]);
    }
  }

  /** The account stands at one place of the list. */
  predicate OnlyAt(partners: seq<nat>, a: int, k: nat)
    requires k < |partners|
  {
    partners[k] == a && forall j :: 0 <= j < |partners| && j != k ==> partners[j] != a
  }

  lemma {:induction false} CreditsOnOne(partners: seq<nat>, amts: seq<int>, a: int)
    requires |partners| == |amts|
    ensures (forall k :: 0 <= k < |partners| ==> partners[k] != a) ==> Delta(Credits(partners, amts), a) == 0
    ensures forall k :: 0 <= k < |partners| && OnlyAt(partners, a, k) ==> Delta(Credits(partners, amts), a) == -amts[k]
  {
    if partners != [] {
      var k := |partners| - 1;
      CreditsOnOne(partners[..k], amts[..k], a);
      assert Credits(partners, amts)[..k] == Credits(partners[..k], amts[..k]);
    }
  }

  /** For a profit or a loss, whatever the interest and the ratio: the one entry balances. */
  lemma {:induction false} AppropriationBalances(pd: nat, net: int, partners: seq<nat>, interests: seq<int>,
      ws: seq<nat>)
    requires |partners| == |interests| == |ws| && Weight(ws) > 0
    ensures Net(DistributionLines(pd, net, partners, interests, ws)) == 0
  {
    var shares := SplitByRatio(net - Sum(interests), ws);
    var first, second, third := [Line(pd, net)], NonNil(Credits(partners, interests)),
      NonNil(Credits(partners, shares));
    WeightedIsNotEmpty(ws);
    SplitIsOdd(net - Sum(interests), ws, 0);
    CreditsNet(partners, interests);
    CreditsNet(partners, shares);
    NonNilKeeps(Credits(partners, interests), 0);
    NonNilKeeps(Credits(partners, shares), 0);
    DeltaConcat(first, second, 0);
    DeltaConcat(first + second, third, 0);
    OneLine(Line(pd, net), 0);
  }

  /** And it credits each partner his interest and his share, and nobody else. */
  lemma AppropriationPaysEachPartner(pd: nat, net: int, partners: seq<nat>, interests: seq<int>, ws: seq<nat>, k: nat)
    requires |partners| == |interests| == |ws| && Weight(ws) > 0 && k < |partners|
    requires forall i, j :: 0 <= i < j < |partners| ==> partners[i] != partners[j]
    requires pd !in partners
    ensures Delta(DistributionLines(pd, net, partners, interests, ws), partners[k])
         == -(interests[k] + SplitByRatio(net - Sum(interests), ws)[k])
    ensures Delta(DistributionLines(pd, net, partners, interests, ws), pd) == net
  {
    var shares := SplitByRatio(net - Sum(interests), ws);
    var first, second, third := [Line(pd, net)], NonNil(Credits(partners, interests)),
      NonNil(Credits(partners, shares));
    OneLine(Line(pd, net), partners[k]);
    OneLine(Line(pd, net), pd);
    OnAccount(first, second, third, partners, interests, shares, partners[k]);
    OnAccount(first, second, third, partners, interests, shares, pd);
    assert DistributionLines(pd, net, partners, interests, ws) == first + second + third;
  }

  lemma {:induction false} OnAccount(first: seq<Line>, second: seq<Line>, third: seq<Line>,
                                     partners: seq<nat>, interests: seq<int>, shares: seq<int>, a: int)
    requires |partners| == |interests| == |shares|
    requires second == NonNil(Credits(partners, interests)) && third == NonNil(Credits(partners, shares))
    requires forall i, j :: 0 <= i < j < |partners| ==> partners[i] != partners[j]
    ensures (forall k :: 0 <= k < |partners| ==> partners[k] != a) ==>
         Delta(first + second + third, a) == Delta(first, a)
    ensures forall k :: 0 <= k < |partners| && partners[k] == a ==>
      Delta(first + second + third, a) == Delta(first, a) - interests[k] - shares[k]
  {
    DeltaConcat(first, second, a);
    DeltaConcat(first + second, third, a);
    NonNilKeeps(Credits(partners, interests), a);
    NonNilKeeps(Credits(partners, shares), a);
    CreditsOnOne(partners, interests, a);
    CreditsOnOne(partners, shares, a);
    forall k | 0 <= k < |partners| && partners[k] == a
      ensures Delta(first + second + third, a) == Delta(first, a) - interests[k] - shares[k]
    {
      assert OnlyAt(partners, a, k);
    }
  }

  // ------------------------------------------------------------------ what the validator accepts

  datatype LineTag = NoTag | InterestLine | ShareLine

  datatype TaggedLine = TaggedLine(acct: nat, amt: int, tag: LineTag)

  /** One line for every partner who gets something. */
  function TaggedCredits(partners: seq<nat>, amts: seq<int>, tag: LineTag): seq<TaggedLine>
    requires |partners| == |amts|
  {
    if partners == [] then []
    else
      var k := |partners| - 1;
      if amts[k] != 0 then TaggedCredits(partners[..k], amts[..k], tag) + [TaggedLine(partners[k], -amts[k], tag)]
      else TaggedCredits(partners[..k], amts[..k], tag)
  }

  /** The producer's entry with its tags. */
  function TaggedDistribution(pd: nat, net: int, partners: seq<nat>, interests: seq<int>, ws: seq<nat>): seq<TaggedLine>
    requires |partners| == |interests| == |ws| && Weight(ws) > 0
  {
    [TaggedLine(pd, net, NoTag)] + TaggedCredits(partners, interests, InterestLine)
    + TaggedCredits(partners, SplitByRatio(net - Sum(interests), ws), ShareLine)
  }

  function Untagged(ls: seq<TaggedLine>): seq<Line> {
    seq(|ls|, k requires 0 <= k < |ls| => Line(ls[k].acct, ls[k].amt))
  }

  lemma {:induction false} CreditsUntagged(partners: seq<nat>, amts: seq<int>, tag: LineTag)
    requires |partners| == |amts|
    ensures Untagged(TaggedCredits(partners, amts, tag)) == NonNil(Credits(partners, amts))
  {
    if partners != [] {
      var k := |partners| - 1;
      CreditsUntagged(partners[..k], amts[..k], tag);
      assert Credits(partners, amts)[..k] == Credits(partners[..k], amts[..k]);
    }
  }

  lemma {:induction false} DistributionUntagged(pd: nat, net: int, partners: seq<nat>, interests: seq<int>,
      ws: seq<nat>)
    requires |partners| == |interests| == |ws| && Weight(ws) > 0
    ensures Untagged(TaggedDistribution(pd, net, partners, interests, ws))
         == DistributionLines(pd, net, partners, interests, ws)
  {
    CreditsUntagged(partners, interests, InterestLine);
    CreditsUntagged(partners, SplitByRatio(net - Sum(interests), ws), ShareLine);
  }

  function Debits(ls: seq<TaggedLine>): seq<TaggedLine> {
    if ls == [] then []
    else if ls[|ls| - 1].amt > 0 then Debits(ls[..|ls| - 1]) + [ls[|ls| - 1]]
    else Debits(ls[..|ls| - 1])
  }

  /** What the lines of one tag credit to an account. */
  function Credited(ls: seq<TaggedLine>, a: nat, tag: LineTag): int {
    if ls == [] then 0
    else
      var l := ls[|ls| - 1];
      Credited(ls[..|ls| - 1], a, tag) + (if l.acct == a && l.tag == tag then -l.amt else 0)
  }

  /** The one debit the validator looks for. */
  predicate OneDebit(ls: seq<TaggedLine>, pd: nat, net: int) {
    |Debits(ls)| == 1 && Debits(ls)[0].acct == pd && Debits(ls)[0].amt == net
  }

  /** The validator's rules on a distribution: one debit, of the net result, on Profit Distributed; every credit tagged;
      each partner's interest and share as recomputed. */
  predicate ValidatorAccepts(ls: seq<TaggedLine>, pd: nat, net: int, partners: seq<nat>, interests: seq<int>,
      ws: seq<nat>)
    requires |partners| == |interests| == |ws| && Weight(ws) > 0
  {
    && OneDebit(ls, pd, net)
    && (forall l :: l in ls && l.amt < 0 ==> !l.tag.NoTag?)
    && (forall k :: 0 <= k < |partners| ==> Credited(ls, partners[k], InterestLine) == interests[k])
    && (forall k :: 0 <= k < |partners| ==>
          Credited(ls, partners[k], ShareLine) == SplitByRatio(net - Sum(interests), ws)[k])
  }

  lemma {:induction false} DebitsConcat(a: seq<TaggedLine>, b: seq<TaggedLine>)
    ensures Debits(a + b) == Debits(a) + Debits(b)
  {
    if b == [] {
      assert a + b == a;
    } else {
      assert (a + b)[..|a + b| - 1] == a + b[..|b| - 1];
      DebitsConcat(a, b[..|b| - 1]);
    }
  }

  lemma {:induction false} CreditedConcat(a: seq<TaggedLine>, b: seq<TaggedLine>, x: nat, tag: LineTag)
    ensures Credited(a + b, x, tag) == Credited(a, x, tag) + Credited(b, x, tag)
  {
    if b == [] {
      assert a + b == a;
    } else {
      assert (a + b)[..|a + b| - 1] == a + b[..|b| - 1];
      CreditedConcat(a, b[..|b| - 1], x, tag);
    }
  }

  predicate NoneNegative(amts: seq<int>) {
    forall k :: 0 <= k < |amts| ==> amts[k] >= 0
  }

  lemma {:induction false} CreditsAreTagged(partners: seq<nat>, amts: seq<int>, tag: LineTag)
    requires |partners| == |amts|
    ensures forall l :: l in TaggedCredits(partners, amts, tag) ==> l.tag == tag
  {
    if partners != [] {
      CreditsAreTagged(partners[..|partners| - 1], amts[..|partners| - 1], tag);
    }
  }

  lemma {:induction false} OneMoreDebit(pre: seq<TaggedLine>, l: TaggedLine)
    ensures Debits(pre + [l]) == if l.amt > 0 then Debits(pre) + [l] else Debits(pre)
  {
    assert (pre + [l])[..|pre|] == pre;
  }

  /** Only a partner charged puts a debit into the credits. */
  lemma {:induction false} CreditsHoldDebits(partners: seq<nat>, amts: seq<int>, tag: LineTag)
    requires |partners| == |amts|
    ensures |Debits(TaggedCredits(partners, amts, tag))| == 0 <==> NoneNegative(amts)
  {
    if partners != [] {
      var k := |partners| - 1;
      CreditsHoldDebits(partners[..k], amts[..k], tag);
      OneMoreDebit(TaggedCredits(partners[..k], amts[..k], tag), TaggedLine(partners[k], -amts[k], tag));
      assert NoneNegative(amts) <==> NoneNegative(amts[..k]) && amts[k] >= 0;
    }
  }

  lemma {:induction false} OneMoreTagged(pre: seq<TaggedLine>, l: TaggedLine, a: nat, tag: LineTag)
    ensures Credited(pre + [l], a, tag) == Credited(pre, a, tag) + (if l.acct == a && l.tag == tag then -l.amt else 0)
  {
    assert (pre + [l])[..|pre|] == pre;
  }

  lemma {:induction false} CreditsOfOtherTag(partners: seq<nat>, amts: seq<int>, tag: LineTag, a: nat, other: LineTag)
    requires |partners| == |amts| && other != tag
    ensures Credited(TaggedCredits(partners, amts, tag), a, other) == 0
  {
    if partners != [] {
      var last := |partners| - 1;
      CreditsOfOtherTag(partners[..last], amts[..last], tag, a, other);
      OneMoreTagged(TaggedCredits(partners[..last], amts[..last], tag), TaggedLine(partners[last], -amts[last], tag),
        a, other);
    }
  }

  lemma {:induction false} CreditsOfNobody(partners: seq<nat>, amts: seq<int>, tag: LineTag, a: nat)
    requires |partners| == |amts| && a !in partners
    ensures Credited(TaggedCredits(partners, amts, tag), a, tag) == 0
  {
    if partners != [] {
      var last := |partners| - 1;
      CreditsOfNobody(partners[..last], amts[..last], tag, a);
      OneMoreTagged(TaggedCredits(partners[..last], amts[..last], tag), TaggedLine(partners[last], -amts[last], tag),
        a, tag);
    }
  }

  /** A partner with an account of his own is credited his own amount. */
  lemma {:induction false} CreditsOfOne(partners: seq<nat>, amts: seq<int>, tag: LineTag, a: nat, k: nat)
    requires |partners| == |amts| && k < |partners| && OnlyAt(partners, a, k)
    ensures Credited(TaggedCredits(partners, amts, tag), a, tag) == amts[k]
  {
    var last := |partners| - 1;
    OneMoreTagged(TaggedCredits(partners[..last], amts[..last], tag), TaggedLine(partners[last], -amts[last], tag), a,
      tag);
    if k < last {
      CreditsOfOne(partners[..last], amts[..last], tag, a, k);
    } else {
      CreditsOfNobody(partners[..last], amts[..last], tag, a);
    }
  }

  /** The three parts of the distribution, for one account and one tag. */
  lemma {:induction false} CreditedInParts(l: TaggedLine, second: seq<TaggedLine>, third: seq<TaggedLine>, a: nat,
      tag: LineTag)
    requires l.tag != tag
    ensures Credited([l] + second + third, a, tag) == Credited(second, a, tag) + Credited(third, a, tag)
  {
    OneMoreTagged([], l, a, tag);
    assert [] + [l] == [l];
    CreditedConcat([l], second, a, tag);
    CreditedConcat([l] + second, third, a, tag);
  }

  /** What the distribution credits to one partner under each tag. */
  lemma {:induction false} DistributionCredits(pd: nat, net: int, partners: seq<nat>, interests: seq<int>,
      ws: seq<nat>, k: nat)
    requires |partners| == |interests| == |ws| && Weight(ws) > 0 && k < |partners|
    requires forall i, j :: 0 <= i < j < |partners| ==> partners[i] != partners[j]
    ensures var ls := TaggedDistribution(pd, net, partners, interests, ws);
      && Credited(ls, partners[k], InterestLine) == interests[k]
      && Credited(ls, partners[k], ShareLine) == SplitByRatio(net - Sum(interests), ws)[k]
  {
    var a, shares := partners[k], SplitByRatio(net - Sum(interests), ws);
    var l := TaggedLine(pd, net, NoTag);
    var second, third := TaggedCredits(partners, interests, InterestLine), TaggedCredits(partners, shares, ShareLine);
    assert OnlyAt(partners, a, k);
    CreditsOfOne(partners, interests, InterestLine, a, k);
    CreditsOfOne(partners, shares, ShareLine, a, k);
    CreditsOfOtherTag(partners, interests, InterestLine, a, ShareLine);
    CreditsOfOtherTag(partners, shares, ShareLine, a, InterestLine);
    CreditedInParts(l, second, third, a, InterestLine);
    CreditedInParts(l, second, third, a, ShareLine);
  }

  lemma {:induction false} DebitsInParts(l: TaggedLine, second: seq<TaggedLine>, third: seq<TaggedLine>)
    requires |Debits(second)| == 0
    ensures Debits([l] + second + third) == (if l.amt > 0 then [l] else []) + Debits(third)
  {
    assert [l][..0] == [];
    DebitsConcat([l], second);
    DebitsConcat([l] + second, third);
  }

  /** No share is negative exactly when what is shared is not. */
  lemma {:induction false} SharesKeepTheSign(total: int, ws: seq<nat>)
    requires Weight(ws) > 0
    ensures NoneNegative(SplitByRatio(total, ws)) <==> total >= 0
  {
    var shares := SplitByRatio(total, ws);
    WeightedIsNotEmpty(ws);
    SplitIsOdd(total, ws, 0);
    forall k | 0 <= k < |ws| && total >= 0 ensures shares[k] >= 0 {
      SharesAreNotNegative(total, ws, k);
    }
    if NoneNegative(shares) {
      SumOfNoneNegative(shares);
    }
  }

  lemma {:induction false} SumOfNoneNegative(amts: seq<int>)
    requires NoneNegative(amts)
    ensures Sum(amts) >= 0
  {
    if amts != [] {
      SumOfNoneNegative(amts[..|amts| - 1]);
    }
  }

  lemma {:induction false} DebitsArePositive(ls: seq<TaggedLine>)
    ensures forall k :: 0 <= k < |Debits(ls)| ==> Debits(ls)[k].amt > 0
  {
    if ls != [] {
      DebitsArePositive(ls[..|ls| - 1]);
    }
  }

  /** One line and the credits hold the one debit exactly when that line is a debit and the credits hold none. */
  lemma {:induction false} OneDebitOf(ls: seq<TaggedLine>, l: TaggedLine, rest: seq<TaggedLine>)
    requires Debits(ls) == (if l.amt > 0 then [l] else []) + rest
    ensures OneDebit(ls, l.acct, l.amt) <==> l.amt > 0 && |rest| == 0
  {
    DebitsArePositive(ls);
  }

  lemma {:induction false} OneDebitExactly(pd: nat, net: int, partners: seq<nat>, interests: seq<int>, ws: seq<nat>)
    requires |partners| == |interests| == |ws| && Weight(ws) > 0 && NoneNegative(interests)
    ensures OneDebit(TaggedDistribution(pd, net, partners, interests, ws), pd, net)
         <==> net > 0 && net >= Sum(interests)
  {
    var shares := SplitByRatio(net - Sum(interests), ws);
    var l := TaggedLine(pd, net, NoTag);
    var second, third := TaggedCredits(partners, interests, InterestLine), TaggedCredits(partners, shares, ShareLine);
    CreditsHoldDebits(partners, interests, InterestLine);
    CreditsHoldDebits(partners, shares, ShareLine);
    DebitsInParts(l, second, third);
    OneDebitOf([l] + second + third, l, Debits(third));
    SharesKeepTheSign(net - Sum(interests), ws);
  }

  lemma {:induction false} EveryCreditIsTagged(pd: nat, net: int, partners: seq<nat>, interests: seq<int>, ws: seq<nat>)
    requires |partners| == |interests| == |ws| && Weight(ws) > 0
    ensures forall l :: l in TaggedDistribution(pd, net, partners, interests, ws) && l.tag.NoTag? ==> l.amt == net
  {
    CreditsAreTagged(partners, interests, InterestLine);
    CreditsAreTagged(partners, SplitByRatio(net - Sum(interests), ws), ShareLine);
  }

  /** The validator accepts the producer's entry exactly when there is a profit and it covers the interest: it refuses
      every loss, and every profit smaller than the interest on capital. */
  lemma {:induction false} ValidatorAcceptsExactly(pd: nat, net: int, partners: seq<nat>, interests: seq<int>,
      ws: seq<nat>)
    requires |partners| == |interests| == |ws| && Weight(ws) > 0 && NoneNegative(interests)
    requires forall i, j :: 0 <= i < j < |partners| ==> partners[i] != partners[j]
    ensures ValidatorAccepts(TaggedDistribution(pd, net, partners, interests, ws), pd, net, partners, interests, ws)
       <==> net > 0 && net >= Sum(interests)
  {
    var ls := TaggedDistribution(pd, net, partners, interests, ws);
    OneDebitExactly(pd, net, partners, interests, ws);
    EveryCreditIsTagged(pd, net, partners, interests, ws);
    forall k | 0 <= k < |partners|
      ensures Credited(ls, partners[k], InterestLine) == interests[k]
      ensures Credited(ls, partners[k], ShareLine) == SplitByRatio(net - Sum(interests), ws)[k]
    {
      DistributionCredits(pd, net, partners, interests, ws, k);
    }
  }

  // ------------------------------------------------------------------ the entry in its log

  /** The year's net result: what the income and expense heads stand at on the last day, turned. */
  function NetResult(log: Log, heads: seq<nat>): int {
    if heads == [] then 0
    else NetResult(log, heads[..|heads| - 1]) - Bal(log, heads[|heads| - 1], FY_END)
  }

  /** The producer's interest of each partner, and the validator's. */
  function SeriesInterests(log: Log, partners: seq<nat>, rateBp: nat): seq<int> {
    seq(|partners|, k requires 0 <= k < |partners| => InterestOf(CreditTotal(log, partners[k], FY_END), rateBp))
  }

  function RecomputedInterests(log: Log, partners: seq<nat>, rateBp: nat): seq<int> {
    seq(|partners|, k requires 0 <= k < |partners| => InterestOf(CreditRecomputed(log, partners[k], FY_END), rateBp))
  }

  /** The appropriation of a firm: its heads, its partners' accounts, their ratio and the rate of interest. */
  datatype Firm = Firm(pd: nat, heads: seq<nat>, partners: seq<nat>, ws: seq<nat>, rateBp: nat)

  /** Every partner has an account of his own; it, and Profit Distributed, is no income or expense head. */
  predicate SoundFirm(f: Firm) {
    && |f.partners| == |f.ws| && Weight(f.ws) > 0
    && (forall i, j :: 0 <= i < j < |f.partners| ==> f.partners[i] != f.partners[j])
    && (forall k :: 0 <= k < |f.heads| ==> f.heads[k] != f.pd && f.heads[k] !in f.partners)
  }

  /** `distribute`: the lines of the entry, and the log with it. */
  function FirmsLines(log: Log, f: Firm): seq<TaggedLine>
    requires SoundFirm(f)
  {
    TaggedDistribution(f.pd, NetResult(log, f.heads), f.partners, SeriesInterests(log, f.partners, f.rateBp), f.ws)
  }

  function Distributed(log: Log, f: Firm, date: int, authored: int): Log
    requires SoundFirm(f)
  {
    Posted(log, NewEntry(date, authored, Untagged(FirmsLines(log, f)), Distribution))
  }

  /** What the validator finds in a log with the entry `ls`: net result and interests recomputed from that log. */
  predicate LogAccepts(log: Log, ls: seq<TaggedLine>, f: Firm)
    requires SoundFirm(f)
  {
    ValidatorAccepts(ls, f.pd, NetResult(log, f.heads), f.partners, RecomputedInterests(log, f.partners, f.rateBp),
      f.ws)
  }

  /** The distribution itself earns nothing. */
  lemma {:induction false} DistributionEarnsNothing(log: Log, e: Entry, a: int, days: nat)
    requires e.tag.Distribution?
    ensures CreditRecomputed(Posted(log, e), a, days) == CreditRecomputed(log, a, days)
  {
    if days > 0 {
      DistributionEarnsNothing(log, e, a, days - 1);
      TotalSnoc(log, e, Upto({Distribution}, days), a);
    }
  }

  lemma {:induction false} DistributionLeavesOthers(pd: nat, net: int, partners: seq<nat>, interests: seq<int>,
      ws: seq<nat>, a: nat)
    requires |partners| == |interests| == |ws| && Weight(ws) > 0 && a != pd && a !in partners
    requires forall i, j :: 0 <= i < j < |partners| ==> partners[i] != partners[j]
    ensures Delta(DistributionLines(pd, net, partners, interests, ws), a) == 0
  {
    var shares := SplitByRatio(net - Sum(interests), ws);
    OneLine(Line(pd, net), a);
    OnAccount([Line(pd, net)], NonNil(Credits(partners, interests)), NonNil(Credits(partners, shares)), partners,
      interests, shares, a);
  }

  /** It leaves the net result alone. */
  lemma {:induction false} ResultIsLeft(log: Log, e: Entry, heads: seq<nat>)
    requires forall k :: 0 <= k < |heads| ==> Delta(e.lines, heads[k]) == 0
    ensures NetResult(Posted(log, e), heads) == NetResult(log, heads)
  {
    if heads != [] {
      ResultIsLeft(log, e, heads[..|heads| - 1]);
      TotalSnoc(log, e, AsOf(FY_END), heads[|heads| - 1]);
    }
  }

  /** So the validator recomputes from the log with the entry what it would from the log without it. */
  lemma {:induction false} SameFigures(log: Log, f: Firm, date: int, authored: int)
    requires SoundFirm(f)
    ensures var done := Distributed(log, f, date, authored);
      && NetResult(done, f.heads) == NetResult(log, f.heads)
      && RecomputedInterests(done, f.partners, f.rateBp) == RecomputedInterests(log, f.partners, f.rateBp)
  {
    var net, interests := NetResult(log, f.heads), SeriesInterests(log, f.partners, f.rateBp);
    var e := NewEntry(date, authored, Untagged(FirmsLines(log, f)), Distribution);
    DistributionUntagged(f.pd, net, f.partners, interests, f.ws);
    forall k | 0 <= k < |f.heads| ensures Delta(e.lines, f.heads[k]) == 0 {
      DistributionLeavesOthers(f.pd, net, f.partners, interests, f.ws, f.heads[k]);
    }
    ResultIsLeft(log, e, f.heads);
    forall k | 0 <= k < |f.partners|
      ensures CreditRecomputed(Posted(log, e), f.partners[k], FY_END) == CreditRecomputed(log, f.partners[k], FY_END)
    {
      DistributionEarnsNothing(log, e, f.partners[k], FY_END);
    }
  }

  /** The validator, recomputing net result and interest from the log with the entry in it, accepts the producer's entry
      exactly when there is a profit, it covers the interest, and the two figures of every partner's interest agree. */
  lemma {:induction false} EntryIsAcceptedExactly(log: Log, f: Firm, date: int, authored: int)
    requires SoundFirm(f)
    ensures var net, ints := NetResult(log, f.heads), SeriesInterests(log, f.partners, f.rateBp);
      LogAccepts(Distributed(log, f, date, authored), FirmsLines(log, f), f)
      <==> net > 0 && net >= Sum(ints) && ints == RecomputedInterests(log, f.partners, f.rateBp)
  {
    var net, ints := NetResult(log, f.heads), SeriesInterests(log, f.partners, f.rateBp);
    var found := RecomputedInterests(log, f.partners, f.rateBp);
    SameFigures(log, f, date, authored);
    if ints == found {
      ValidatorAcceptsExactly(f.pd, net, f.partners, ints, f.ws);
    } else {
      var k :| 0 <= k < |f.partners| && ints[k] != found[k];
      DistributionCredits(f.pd, net, f.partners, ints, f.ws, k);
    }
  }

  /** In a book that starts with the year: exactly when there is a profit and it covers the interest. */
  lemma {:induction false} EntryOfABookOfTheYear(log: Log, f: Firm, date: int, authored: int)
    requires SoundFirm(f) && forall k :: 0 <= k < |log| ==> log[k].date >= FY_START
    ensures LogAccepts(Distributed(log, f, date, authored), FirmsLines(log, f), f)
       <==> NetResult(log, f.heads) > 0
            && NetResult(log, f.heads) >= Sum(SeriesInterests(log, f.partners, f.rateBp))
  {
    EntryIsAcceptedExactly(log, f, date, authored);
    forall k | 0 <= k < |f.partners|
      ensures SeriesInterests(log, f.partners, f.rateBp)[k] == RecomputedInterests(log, f.partners, f.rateBp)[k]
    {
      BookOfTheYear(log, f.partners[k], f.rateBp);
    }
  }
}
