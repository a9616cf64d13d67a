/** Half-up rounding and the sharing of an amount in a ratio: the producer's rule, its exact error
    bounds, and when the independent checker's one-paisa test accepts it. */
module Sharing {
  import opened Arith
  import opened Totals

  /** Integer division rounded half-up, of a non-negative amount. */
  function HalfUp(numer: nat, denom: nat): nat
    requires denom > 0
  {
    (2 * numer + denom) / (2 * denom)
  }

  /** The rounded figure is within half a unit of the exact one, a tie going up; and no other integer is. */
  lemma HalfUpIsNearest(numer: nat, denom: nat, q: int)
    requires denom > 0
    ensures q == HalfUp(numer, denom) <==> 2 * numer - denom < 2 * (q * denom) <= 2 * numer + denom
  {
    DivUnique(2 * numer + denom, 2 * denom, q);
    assert q * (2 * denom) == 2 * (q * denom);
  }

  lemma HalfUpMonotone(a: nat, b: nat, denom: nat)
    requires a <= b && denom > 0
    ensures HalfUp(a, denom) <= HalfUp(b, denom)
  {
    DivMonotone(2 * a + denom, 2 * b + denom, 2 * denom);
  }

  // ------------------------------------------------------------------ the rule

  function Sum(s: seq<int>): int {
    if s == [] then 0 else Sum(s[..|s| - 1]) + s[|s| - 1]
  }

  function Weight(ws: seq<nat>): nat {
    if ws == [] then 0 else Weight(ws[..|ws| - 1]) + ws[|ws| - 1]
  }

  /** The partner who takes the paise left over: the largest ratio, the earliest listed on a tie. */
  function Chosen(ws: seq<nat>): (c: nat)
    requires ws != []
    ensures c < |ws|
  {
    if |ws| == 1 then 0
    else
      var k := |ws| - 1;
      var j := Chosen(ws[..k]);
      if ws[k] <= ws[j] then j else k
  }

  function Floors(t: nat, ws: seq<nat>, sw: nat): seq<int>
    requires sw > 0
  {
    seq(|ws|, k requires 0 <= k < |ws| => t * ws[k] / sw)
  }

  /** The shares of a non-negative amount; a ratio of nothing cannot be shared in. */
  function Shares(t: nat, ws: seq<nat>): (shares: seq<int>)
    requires Weight(ws) > 0
    ensures |shares| == |ws|
  {
    var floors := Floors(t, ws, Weight(ws));
    assert |floors| == |ws| && ws != [];
    var c := Chosen(ws);
    floors[c := floors[c] + (t - Sum(floors))]
  }

  /** The same rule for a profit or a loss. */
  function SplitByRatio(total: int, ws: seq<nat>): seq<int>
    requires Weight(ws) > 0
  {
    var shares := Shares(Abs(total), ws);
    seq(|ws|, k requires 0 <= k < |ws| => if total >= 0 then shares[k] else -shares[k])
  }

  // ------------------------------------------------------------------ what the rule guarantees

  lemma {:induction false} ChosenIsEarliestLargest(ws: seq<nat>)
    requires ws != []
    ensures Chosen(ws) < |ws|
    ensures forall k :: 0 <= k < |ws| ==> ws[k] <= ws[Chosen(ws)]
    ensures forall k :: 0 <= k < Chosen(ws) ==> ws[k] < ws[Chosen(ws)]
  {
    if |ws| > 1 {
      ChosenIsEarliestLargest(ws[..|ws| - 1]);
    }
  }

  /** The paise-fractions the floors leave behind, in units of one paisa over the weight, `skip` left out. */
  function LeftOver(t: nat, ws: seq<nat>, sw: nat, skip: int): nat
    requires sw > 0
  {
    if ws == [] then 0
    else
      var k := |ws| - 1;
      LeftOver(t, ws[..k], sw, skip) + (if k == skip then 0 else t * ws[k] % sw)
  }

  lemma {:induction false} FloorsLeaveOver(t: nat, ws: seq<nat>, sw: nat, skip: int)
    requires sw > 0
    ensures Sum(Floors(t, ws, sw)) * sw + LeftOver(t, ws, sw, skip)
         == t * Weight(ws) - (if 0 <= skip < |ws| then t * ws[skip] % sw else 0)
  {
    if ws != [] {
      var k := |ws| - 1;
      var pre := ws[..k];
      FloorsLeaveOver(t, pre, sw, skip);
      assert Floors(t, ws, sw)[..k] == Floors(t, pre, sw);
      var x := t * ws[k];
      DivRem(x, sw);
      Distribute(Sum(Floors(t, pre, sw)), x / sw, sw);
      Distribute(Weight(pre), ws[k], t);
    }
  }

  lemma {:induction false} LeftOverIsBounded(t: nat, ws: seq<nat>, sw: nat, skip: int)
    requires sw > 0
    ensures LeftOver(t, ws, sw, skip) <= (|ws| - (if 0 <= skip < |ws| then 1 else 0)) * (sw - 1)
  {
    if ws != [] {
      var k := |ws| - 1;
      LeftOverIsBounded(t, ws[..k], sw, skip);
      DivRem(t * ws[k], sw);
      var m := k - (if 0 <= skip < k then 1 else 0);
      Distribute(m, 1, sw - 1);
    }
  }

  lemma {:induction false} SumUpdate(s: seq<int>, k: nat, x: int)
    requires k < |s|
    ensures Sum(s[k := x]) == Sum(s) - s[k] + x
  {
    var last := |s| - 1;
    if k == last {
      assert s[k := x][..last] == s[..last];
    } else {
      assert s[k := x][..last] == s[..last][k := x];
      SumUpdate(s[..last], k, x);
    }
  }

  lemma {:induction false} WeightedIsNotEmpty(ws: seq<nat>)
    requires Weight(ws) > 0
    ensures ws != []
  {
  }

  /** Nothing is lost or made: the shares are the amount. */
  lemma {:induction false} SharesAddUp(t: nat, ws: seq<nat>)
    requires Weight(ws) > 0
    ensures Sum(Shares(t, ws)) == t
  {
    ChosenIsEarliestLargest(ws);
    var floors := Floors(t, ws, Weight(ws));
    SumUpdate(floors, Chosen(ws), floors[Chosen(ws)] + (t - Sum(floors)));
  }

  /** Every partner but the chosen one is short of his exact share by less than one paisa. */
  lemma {:induction false} OthersAreShortByLessThanAPaisa(t: nat, ws: seq<nat>, k: nat)
    requires Weight(ws) > 0 && k < |ws| && k != Chosen(ws)
    ensures 0 <= t * ws[k] - Shares(t, ws)[k] * Weight(ws) < Weight(ws)
  {
    ChosenIsEarliestLargest(ws);
    DivRem(t * ws[k], Weight(ws));
  }

  /** The chosen partner is over his exact share by exactly what the others are short, so by at most
      (n - 1) paise less (n - 1) fractions of a paisa. */
  lemma {:induction false} ChosenTakesTheRest(t: nat, ws: seq<nat>)
    requires Weight(ws) > 0
    ensures var c := Chosen(ws);
      && c < |ws|
      && Shares(t, ws)[c] * Weight(ws) - t * ws[c] == LeftOver(t, ws, Weight(ws), c)
      && 0 <= LeftOver(t, ws, Weight(ws), c) <= (|ws| - 1) * (Weight(ws) - 1)
  {
    ChosenIsEarliestLargest(ws);
    var c, sw := Chosen(ws), Weight(ws);
    var floors := Floors(t, ws, sw);
    var given := Sum(floors);
    FloorsLeaveOver(t, ws, sw, c);
    LeftOverIsBounded(t, ws, sw, c);
    var x := t * ws[c];
    DivRem(x, sw);
    Distribute(x / sw, t - given, sw);
    Distribute(t, given, sw);
  }

  /** The residue the floors leave is never negative. */
  lemma {:induction false} ResidueIsNotNegative(t: nat, ws: seq<nat>)
    requires Weight(ws) > 0
    ensures t - Sum(Floors(t, ws, Weight(ws))) >= 0
  {
    var sw := Weight(ws);
    var given := Sum(Floors(t, ws, sw));
    FloorsLeaveOver(t, ws, sw, -1);
    MulLe(t, given, sw);
  }

  lemma {:induction false} SharesAreNotNegative(t: nat, ws: seq<nat>, k: nat)
    requires Weight(ws) > 0 && k < |ws|
    ensures Shares(t, ws)[k] >= 0
  {
    ResidueIsNotNegative(t, ws);
    FloorIsNotNegative(t, ws, Weight(ws), k);
    FloorIsNotNegative(t, ws, Weight(ws), Chosen(ws));
  }

  lemma FloorIsNotNegative(t: nat, ws: seq<nat>, sw: nat, k: nat)
    requires sw > 0 && k < |ws|
    ensures Floors(t, ws, sw)[k] >= 0
  {
    ProductOfNats(t, ws[k]);
    DivMonotone(0, t * ws[k], sw);
  }

  /** A strictly larger ratio never gets less, and on equal ratios only the chosen partner gets more. */
  lemma {:induction false} LargerRatioNeverGetsLess(t: nat, ws: seq<nat>, j: nat, k: nat)
    requires Weight(ws) > 0 && j < |ws| && k < |ws|
    ensures ws[j] > ws[k] ==> Shares(t, ws)[j] >= Shares(t, ws)[k]
    ensures ws[j] == ws[k] && k != Chosen(ws) ==> Shares(t, ws)[j] >= Shares(t, ws)[k]
  {
    ChosenIsEarliestLargest(ws);
    ResidueIsNotNegative(t, ws);
    MulLe(ws[k], ws[j], t);
    Distribute(ws[k], ws[j], t);
    var sw := Weight(ws);
    var x, y := t * ws[k], t * ws[j];
    if x <= y {
      DivMonotone(x, y, sw);
    }
    var floors := Floors(t, ws, sw);
    assert floors[k] == x / sw && floors[j] == y / sw;
  }

  lemma {:induction false} SumOfNegated(a: seq<int>, b: seq<int>)
    requires |a| == |b| && forall k :: 0 <= k < |a| ==> b[k] == -a[k]
    ensures Sum(b) == -Sum(a)
  {
    if a != [] {
      SumOfNegated(a[..|a| - 1], b[..|b| - 1]);
    }
  }

  /** A loss is shared exactly as the profit of the same size, with the signs turned. */
  lemma {:induction false} SplitIsOdd(total: int, ws: seq<nat>, k: nat)
    requires Weight(ws) > 0 && k < |ws|
    ensures SplitByRatio(-total, ws)[k] == -SplitByRatio(total, ws)[k]
    ensures Sum(SplitByRatio(total, ws)) == total
  {
    var shares := Shares(Abs(total), ws);
    SharesAddUp(Abs(total), ws);
    if total >= 0 {
      assert SplitByRatio(total, ws) == shares;
    } else {
      SumOfNegated(shares, SplitByRatio(total, ws));
    }
    if total == 0 {
      ZeroSharesAreZero(ws, k);
    }
  }

  lemma {:induction false} ZeroSharesAreZero(ws: seq<nat>, k: nat)
    requires Weight(ws) > 0 && k < |ws|
    ensures Shares(0, ws)[k] == 0
  {
    var floors := Floors(0, ws, Weight(ws));
    FloorsLeaveOverNothing(ws, Weight(ws));
    NothingHasNoFloor(ws, Weight(ws), k);
    NothingHasNoFloor(ws, Weight(ws), Chosen(ws));
    assert Shares(0, ws) == floors[Chosen(ws) := floors[Chosen(ws)] + (0 - Sum(floors))];
  }

  lemma NothingHasNoFloor(ws: seq<nat>, sw: nat, k: nat)
    requires sw > 0 && k < |ws|
    ensures Floors(0, ws, sw)[k] == 0
  {
    assert 0 * ws[k] == 0;
  }

  lemma {:induction false} FloorsLeaveOverNothing(ws: seq<nat>, sw: nat)
    requires sw > 0
    ensures Sum(Floors(0, ws, sw)) == 0
  {
    if ws != [] {
      FloorsLeaveOverNothing(ws[..|ws| - 1], sw);
      assert Floors(0, ws, sw)[..|ws| - 1] == Floors(0, ws[..|ws| - 1], sw);
    }
  }

  // ------------------------------------------------------------------ the checker

  /** The checker's test of the printed shares: each within a paisa of the exact share. */
  predicate CheckerAccepts(rest: int, ws: seq<nat>, shares: seq<int>)
    requires |shares| == |ws|
  {
    && rest > 0 && Sum(shares) == rest
    && forall k :: 0 <= k < |ws| ==> Abs(shares[k] * Weight(ws) - rest * ws[k]) < Weight(ws)
  }

  /** The checker accepts a correct split exactly when the others' fractions come to less than a paisa. */
  lemma {:induction false} CheckerAcceptsExactly(rest: nat, ws: seq<nat>)
    requires Weight(ws) > 0 && rest > 0
    ensures CheckerAccepts(rest, ws, Shares(rest, ws)) <==> LeftOver(rest, ws, Weight(ws), Chosen(ws)) < Weight(ws)
  {
    SharesAddUp(rest, ws);
    ChosenTakesTheRest(rest, ws);
    forall k | 0 <= k < |ws| && k != Chosen(ws)
      ensures Abs(Shares(rest, ws)[k] * Weight(ws) - rest * ws[k]) < Weight(ws)
    {
      OthersAreShortByLessThanAPaisa(rest, ws, k);
    }
  }

  /** Two partners: every correct split passes the checker. */
  lemma {:induction false} CheckerAcceptsTwoPartners(rest: nat, ws: seq<nat>)
    requires |ws| == 2 && Weight(ws) > 0 && rest > 0
    ensures CheckerAccepts(rest, ws, Shares(rest, ws))
  {
    CheckerAcceptsExactly(rest, ws);
    ChosenTakesTheRest(rest, ws);
  }

  /** Three partners at 2 : 2 : 1, with 2 paise over a multiple of five: the correct split fails the checker. */
  lemma CheckerRefusesACorrectSplit(m: nat)
    ensures var ws: seq<nat> := [2, 2, 1];
      Weight(ws) == 5 && !CheckerAccepts(5 * m + 2, ws, Shares(5 * m + 2, ws))
  {
    var ws: seq<nat> := [2, 2, 1];
    var t := 5 * m + 2;
    assert ws[..2] == [2, 2] && ws[..2][..1] == [2] && ws[..2][..1][..0] == [];
    assert Weight(ws[..2][..1]) == 2;
    assert Weight(ws[..2]) == 4;
    assert Weight(ws) == 5;
    assert Chosen(ws) == 0;
    assert (t * 2) % 5 == 4 && (t * 1) % 5 == 2;
    assert LeftOver(t, ws[..2][..1], 5, 0) == 0;
    assert LeftOver(t, ws[..2], 5, 0) == 4;
    assert LeftOver(t, ws, 5, 0) == 6;
    CheckerAcceptsExactly(t, ws);
  }
}
