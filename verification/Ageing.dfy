/** Open items of a person's account, first in first out: the signed queue of the reference books, its closed form,
    the age buckets, and the debit queue with a credit pool of the worked examples. */
module Ageing {
  import opened Totals
  import Ledger

  /** A date and a signed amount: a ledger row, or an item still open. */
  datatype Item = Item(date: int, amt: int)

  function Balance(h: seq<Item>): int {
    if h == [] then 0 else Balance(h[..|h| - 1]) + h[|h| - 1].amt
  }

  // ------------------------------------------------------------------ the queue, as a function

  /** Opposite amounts: the inner loop's guard, for an item that is not nil. */
  predicate Opposes(item: int, amt: int) {
    (item > 0) != (amt > 0)
  }

  function Settle(items: seq<Item>, amt: int): (seq<Item>, int)
    decreases |items|
  {
    if amt == 0 || items == [] || !Opposes(items[0].amt, amt) then (items, amt)
    else
      var take := Min(Abs(amt), Abs(items[0].amt));
      var left := if items[0].amt < 0 then items[0].amt + take else items[0].amt - take;
      var rest := if amt < 0 then amt + take else amt - take;
      if left == 0 then Settle(items[1..], rest) else (items[0 := items[0].(amt := left)], rest)
  }

  function Step(items: seq<Item>, x: Item): seq<Item> {
    var (left, rest) := Settle(items, x.amt);
    if rest != 0 then left + [Item(x.date, rest)] else left
  }

  /** The open items after a history, the opening balance being its first entry. */
  function OpenItems(h: seq<Item>): seq<Item> {
    if h == [] then [] else Step(OpenItems(h[..|h| - 1]), h[|h| - 1])
  }

  // ------------------------------------------------------------------ the closed form

  predicate SameSign(x: int, r: int) {
    (x > 0 && r > 0) || (x < 0 && r < 0)
  }

  /** The latest amounts on the side of `r` that come to `r`: read from the end, whole amounts, the last one reached
      cut to what is still wanted. */
  function Latest(h: seq<Item>, r: int): seq<Item> {
    if r == 0 || h == [] then []
    else
      var pre, x := h[..|h| - 1], h[|h| - 1];
      if !SameSign(x.amt, r) then Latest(pre, r)
      else if Abs(x.amt) >= Abs(r) then [Item(x.date, r)]
      else Latest(pre, r - x.amt) + [x]
  }

  /** All the amounts of one side. */
  function SideTotal(h: seq<Item>, dr: bool): int {
    if h == [] then 0
    else SideTotal(h[..|h| - 1], dr) + (if (h[|h| - 1].amt > 0) == dr then h[|h| - 1].amt else 0)
  }

  /** There is enough on the side of `r` to come to `r`. */
  predicate Covered(h: seq<Item>, r: int) {
    SideTotal(h, false) <= r <= SideTotal(h, true)
  }

  lemma {:induction false} BalanceIsCovered(h: seq<Item>)
    ensures SideTotal(h, false) <= 0 <= SideTotal(h, true)
    ensures Balance(h) == SideTotal(h, true) + SideTotal(h, false)
    ensures Covered(h, Balance(h))
  {
    if h != [] {
      BalanceIsCovered(h[..|h| - 1]);
    }
  }

  predicate OneSide(items: seq<Item>, r: int) {
    forall k :: 0 <= k < |items| ==> SameSign(items[k].amt, r)
  }

  lemma {:induction false} LatestComesTo(h: seq<Item>, r: int)
    requires Covered(h, r)
    ensures Balance(Latest(h, r)) == r && OneSide(Latest(h, r), r)
  {
    if r != 0 && h != [] {
      var pre, x := h[..|h| - 1], h[|h| - 1];
      var out := Latest(h, r);
      BalanceIsCovered(pre);
      if !SameSign(x.amt, r) {
        LatestComesTo(pre, r);
      } else if Abs(x.amt) >= Abs(r) {
        assert out[..0] == [];
      } else {
        LatestComesTo(pre, r - x.amt);
        assert out[..|out| - 1] == Latest(pre, r - x.amt);
      }
    }
  }

  /** The latest amount is wanted in part only: it is the one open item. */
  lemma SettleCutItem(h: seq<Item>, r: int, amt: int)
    requires h != [] && amt != 0 && r != 0 && Opposes(r, amt) && Abs(amt) <= Abs(r)
    requires SameSign(h[|h| - 1].amt, r) && Abs(h[|h| - 1].amt) >= Abs(r)
    ensures Settle(Latest(h, r), amt) == (Latest(h, r + amt), 0)
  {
    SettleOne(Item(h[|h| - 1].date, r), amt);
  }

  /** The earlier items can take the amount: the latest one stays whole. */
  lemma SettleBeforeLast(h: seq<Item>, r: int, amt: int)
    requires h != [] && amt != 0 && r != 0 && Opposes(r, amt)
    requires SameSign(h[|h| - 1].amt, r) && Abs(h[|h| - 1].amt) < Abs(r)
    requires var r' := r - h[|h| - 1].amt;
      Abs(amt) <= Abs(r') && Settle(Latest(h[..|h| - 1], r'), amt) == (Latest(h[..|h| - 1], r' + amt), 0)
    ensures Settle(Latest(h, r), amt) == (Latest(h, r + amt), 0)
  {
    var pre, x := h[..|h| - 1], h[|h| - 1];
    SettleFront(Latest(pre, r - x.amt), x, amt);
    if r + amt == x.amt {
      assert Latest(pre, 0) + [x] == [Item(x.date, x.amt)];
    }
  }

  /** The earlier items are closed and the latest one is cut. */
  lemma SettleIntoLast(h: seq<Item>, r: int, amt: int)
    requires h != [] && amt != 0 && r != 0 && Opposes(r, amt) && Abs(amt) <= Abs(r)
    requires SameSign(h[|h| - 1].amt, r) && Abs(h[|h| - 1].amt) < Abs(r)
    requires var r' := r - h[|h| - 1].amt; Abs(r') < Abs(amt) && Covered(h[..|h| - 1], r')
    ensures Settle(Latest(h, r), amt) == (Latest(h, r + amt), 0)
  {
    var pre, x := h[..|h| - 1], h[|h| - 1];
    LatestComesTo(pre, r - x.amt);
    SettleOn(Latest(pre, r - x.amt), x, r - x.amt, amt);
    SettleOne(x, r - x.amt + amt);
  }

  /** The queue settles from its oldest item; what is left of the latest amounts are still the latest amounts. */
  lemma {:induction false} SettleTakesOldest(h: seq<Item>, r: int, amt: int)
    requires Covered(h, r)
    requires r == 0 || amt == 0 || Opposes(r, amt)
    requires Abs(amt) <= Abs(r)
    ensures Settle(Latest(h, r), amt) == (Latest(h, r + amt), 0)
  {
    if amt != 0 && h != [] {
      var pre, x := h[..|h| - 1], h[|h| - 1];
      BalanceIsCovered(pre);
      if !SameSign(x.amt, r) {
        SettleTakesOldest(pre, r, amt);
      } else if Abs(x.amt) >= Abs(r) {
        SettleCutItem(h, r, amt);
      } else if Abs(amt) <= Abs(r - x.amt) {
        SettleTakesOldest(pre, r - x.amt, amt);
        SettleBeforeLast(h, r, amt);
      } else {
        SettleIntoLast(h, r, amt);
      }
    }
  }

  lemma {:induction false} SettleOne(x: Item, amt: int)
    requires amt != 0 && x.amt != 0 && Opposes(x.amt, amt) && Abs(amt) <= Abs(x.amt)
    ensures Settle([x], amt) == (if x.amt + amt == 0 then [] else [Item(x.date, x.amt + amt)], 0)
  {
    assert [x][1..] == [] && [x][0 := Item(x.date, x.amt + amt)] == [Item(x.date, x.amt + amt)];
  }

  /** An amount the earlier items can take does not reach the last one. */
  lemma {:induction false} SettleFront(items: seq<Item>, x: Item, amt: int)
    requires Settle(items, amt).1 == 0 && amt != 0
    ensures Settle(items + [x], amt) == (Settle(items, amt).0 + [x], 0)
    decreases |items|
  {
    if items != [] && Opposes(items[0].amt, amt) {
      var take := Min(Abs(amt), Abs(items[0].amt));
      var left := if items[0].amt < 0 then items[0].amt + take else items[0].amt - take;
      var rest := if amt < 0 then amt + take else amt - take;
      if left == 0 {
        assert (items + [x])[1..] == items[1..] + [x];
        if rest != 0 {
          SettleFront(items[1..], x, rest);
        }
      } else {
        assert (items + [x])[0 := items[0].(amt := left)] == items[0 := items[0].(amt := left)] + [x];
      }
    }
  }

  /** The oldest item is closed whole when the amount against it is as large. */
  lemma {:induction false} SettleFirst(items: seq<Item>, r: int, amt: int)
    requires items != [] && OneSide(items, r) && Opposes(r, amt) && amt != 0 && Abs(amt) >= Abs(items[0].amt)
    ensures Settle(items, amt) == Settle(items[1..], amt + items[0].amt)
  {
    assert SameSign(items[0].amt, r);
  }

  /** The oldest item and the rest of a queue that stands on one side at `r`. */
  lemma {:induction false} FrontOfOneSide(items: seq<Item>, r: int)
    requires OneSide(items, r) && Balance(items) == r && r != 0
    ensures items != [] && SameSign(items[0].amt, r) && Abs(items[0].amt) <= Abs(r)
    ensures Balance(items[1..]) == r - items[0].amt && OneSide(items[1..], r)
    ensures items[1..] == [] <==> items[0].amt == r
    ensures items[1..] != [] ==> SameSign(r - items[0].amt, r)
  {
    BalanceFromFront(items);
    BalanceOneSide(items[1..], r);
  }

  /** An amount larger than the earlier items closes them all. */
  lemma {:induction false} SettleAll(items: seq<Item>, r: int, amt: int)
    requires OneSide(items, r) && Balance(items) == r
    requires Opposes(r, amt) && amt != 0 && r != 0 && Abs(amt) > Abs(r)
    ensures Settle(items, amt) == ([], amt + r)
    decreases |items|
  {
    FrontOfOneSide(items, r);
    SettleFirst(items, r, amt);
    if items[1..] != [] {
      SettleAll(items[1..], r - items[0].amt, amt + items[0].amt);
    }
  }

  /** It goes on to the last one. */
  lemma {:induction false} SettleOn(items: seq<Item>, x: Item, r: int, amt: int)
    requires OneSide(items, r) && Balance(items) == r
    requires Opposes(r, amt) && amt != 0 && r != 0 && Abs(amt) > Abs(r)
    requires SameSign(x.amt, r)
    ensures Settle(items + [x], amt) == Settle([x], amt + r)
    decreases |items|
  {
    FrontOfOneSide(items, r);
    SettleFirst(items + [x], r, amt);
    assert (items + [x])[1..] == items[1..] + [x];
    if items[1..] == [] {
      assert items[1..] + [x] == [x];
    } else {
      SettleOn(items[1..], x, r - items[0].amt, amt + items[0].amt);
    }
  }

  lemma {:induction false} BalanceFromFront(items: seq<Item>)
    ensures items != [] ==> Balance(items) == items[0].amt + Balance(items[1..])
  {
    if |items| > 1 {
      BalanceFromFront(items[..|items| - 1]);
      assert items[..|items| - 1][1..] == items[1..][..|items| - 2];
    }
  }

  lemma {:induction false} BalanceOneSide(items: seq<Item>, r: int)
    requires OneSide(items, r)
    ensures items == [] ==> Balance(items) == 0
    ensures items != [] ==> SameSign(Balance(items), r)
  {
    if items != [] {
      BalanceOneSide(items[..|items| - 1], r);
    }
  }

  /** An amount on the queue's own side, or on an account at nil, is one more open item. */
  lemma StepAway(items: seq<Item>, r: int, x: Item)
    requires OneSide(items, r) && (r == 0 || x.amt == 0 || !Opposes(r, x.amt))
    ensures Step(items, x) == if x.amt != 0 then items + [x] else items
  {
    if items != [] {
      assert SameSign(items[0].amt, r);
    }
  }

  /** An amount larger than the balance against it closes every item and opens one of its own. */
  lemma {:induction false} StepAcross(items: seq<Item>, r: int, x: Item)
    requires OneSide(items, r) && Balance(items) == r
    requires r != 0 && x.amt != 0 && Opposes(r, x.amt) && Abs(x.amt) > Abs(r)
    ensures Step(items, x) == [Item(x.date, r + x.amt)]
  {
    SettleAll(items, r, x.amt);
  }

  lemma LatestNext(h: seq<Item>, x: Item, r: int)
    ensures Latest(h + [x], r) == if r == 0 then []
                                  else if !SameSign(x.amt, r) then Latest(h, r)
                                  else if Abs(x.amt) >= Abs(r) then [Item(x.date, r)]
                                  else Latest(h, r - x.amt) + [x]
  {
    assert (h + [x])[..|h|] == h;
  }

  /** An amount against part of the balance comes off the front, and the latest amounts are those from before. */
  lemma StepBack(h: seq<Item>, x: Item, r: int)
    requires Covered(h, r) && r != 0 && x.amt != 0 && Opposes(r, x.amt) && Abs(x.amt) <= Abs(r)
    ensures Step(Latest(h, r), x) == Latest(h + [x], r + x.amt)
  {
    SettleTakesOldest(h, r, x.amt);
    LatestNext(h, x, r + x.amt);
  }

  lemma StepOn(h: seq<Item>, x: Item, r: int)
    requires Covered(h, r) && OneSide(Latest(h, r), r) && (r == 0 || x.amt == 0 || !Opposes(r, x.amt))
    ensures Step(Latest(h, r), x) == Latest(h + [x], r + x.amt)
  {
    StepAway(Latest(h, r), r, x);
    LatestNext(h, x, r + x.amt);
  }

  lemma StepOver(h: seq<Item>, x: Item, r: int)
    requires OneSide(Latest(h, r), r) && Balance(Latest(h, r)) == r
    requires r != 0 && x.amt != 0 && Opposes(r, x.amt) && Abs(x.amt) > Abs(r)
    ensures Step(Latest(h, r), x) == Latest(h + [x], r + x.amt)
  {
    StepAcross(Latest(h, r), r, x);
    LatestNext(h, x, r + x.amt);
  }

  /** One more entry: the queue steps from the closed form to the closed form. */
  lemma {:induction false} StepKeepsLatest(h: seq<Item>, x: Item)
    ensures Step(Latest(h, Balance(h)), x) == Latest(h + [x], Balance(h) + x.amt)
  {
    var r := Balance(h);
    BalanceIsCovered(h);
    LatestComesTo(h, r);
    if r == 0 || x.amt == 0 || !Opposes(r, x.amt) {
      StepOn(h, x, r);
    } else if Abs(x.amt) <= Abs(r) {
      StepBack(h, x, r);
    } else {
      StepOver(h, x, r);
    }
  }

  /** For every history, whatever its signs and however often it crosses nil: the queue is precisely the latest
      amounts of the balance's side that come to the balance, only the oldest of them cut. */
  lemma {:induction false} OpenItemsAreTheLatest(h: seq<Item>)
    ensures OpenItems(h) == Latest(h, Balance(h))
  {
    if h != [] {
      var pre, x := h[..|h| - 1], h[|h| - 1];
      OpenItemsAreTheLatest(pre);
      StepKeepsLatest(pre, x);
      assert h == pre + [x];
    }
  }

  /** The queue stands on one side only and adds up to the balance. */
  lemma {:induction false} OpenItemsComeToTheBalance(h: seq<Item>)
    ensures Balance(OpenItems(h)) == Balance(h) && OneSide(OpenItems(h), Balance(h))
    ensures Balance(h) == 0 <==> OpenItems(h) == []
  {
    OpenItemsAreTheLatest(h);
    BalanceIsCovered(h);
    LatestComesTo(h, Balance(h));
    BalanceOneSide(OpenItems(h), Balance(h));
  }

  // ------------------------------------------------------------------ the loops

  /** The inner loop: it ends, because every turn closes an item or uses the amount up. */
  method SettleLoop(items0: seq<Item>, amt0: int) returns (items: seq<Item>, amt: int)
    ensures (items, amt) == Settle(items0, amt0)
  {
    items, amt := items0, amt0;
    while amt != 0 && items != [] && Opposes(items[0].amt, amt)
      invariant Settle(items, amt) == Settle(items0, amt0)
      decreases |items|, amt != 0
    {
      var take := Min(Abs(amt), Abs(items[0].amt));
      var left := if items[0].amt < 0 then items[0].amt + take else items[0].amt - take;
      amt := if amt < 0 then amt + take else amt - take;
      items := if left == 0 then items[1..] else items[0 := items[0].(amt := left)];
    }
  }

  lemma HistoryStarts(opening: int, start: int, rows: seq<Item>, upto: int)
    ensures OpenItems(History(opening, start, rows[..0], upto)) == if opening != 0 then [Item(start, opening)] else []
  {
    var h := if opening != 0 then [Item(start, opening)] else [];
    assert History(opening, start, rows[..0], upto) == h && h[..0] == [];
  }

  lemma HistoryNext(opening: int, start: int, rows: seq<Item>, upto: int, k: nat)
    requires k < |rows| && rows[k].date <= upto
    ensures History(opening, start, rows[..k + 1], upto) == History(opening, start, rows[..k], upto) + [rows[k]]
    ensures OpenItems(History(opening, start, rows[..k + 1], upto))
         == Step(OpenItems(History(opening, start, rows[..k], upto)), rows[k])
  {
    assert rows[..k + 1][..k] == rows[..k];
    var h := History(opening, start, rows[..k], upto);
    assert (h + [rows[k]])[..|h|] == h;
  }

  /** `fifo_open_items`: the rows up to a date, each settling the items at the front of the list. */
  method FifoOpenItems(opening: int, start: int, rows: seq<Item>, upto: int) returns (items: seq<Item>)
    requires forall j, k :: 0 <= j <= k < |rows| ==> rows[j].date <= rows[k].date
    ensures items == OpenItems(History(opening, start, rows, upto))
  {
    items := if opening != 0 then [Item(start, opening)] else [];
    HistoryStarts(opening, start, rows, upto);
    var k := 0;
    while k < |rows| && rows[k].date <= upto
      invariant k <= |rows|
      invariant items == OpenItems(History(opening, start, rows[..k], upto))
    {
      HistoryNext(opening, start, rows, upto, k);
      var amt;
      items, amt := SettleLoop(items, rows[k].amt);
      if amt != 0 {
        items := items + [Item(rows[k].date, amt)];
      }
      k := k + 1;
    }
    UptoIsAPrefix(opening, start, rows, upto, k);
  }

  /** The opening balance, then the rows dated up to `upto`. */
  function History(opening: int, start: int, rows: seq<Item>, upto: int): seq<Item> {
    (if opening != 0 then [Item(start, opening)] else []) + Upto(rows, upto)
  }

  function Upto(rows: seq<Item>, upto: int): seq<Item> {
    if rows == [] then []
    else if rows[|rows| - 1].date <= upto then Upto(rows[..|rows| - 1], upto) + [rows[|rows| - 1]]
    else Upto(rows[..|rows| - 1], upto)
  }

  lemma {:induction false} UptoIsAPrefix(opening: int, start: int, rows: seq<Item>, upto: int, k: nat)
    requires k <= |rows|
    requires forall j :: k <= j < |rows| ==> rows[j].date > upto
    ensures History(opening, start, rows, upto) == History(opening, start, rows[..k], upto)
    decreases |rows|
  {
    if k < |rows| {
      UptoIsAPrefix(opening, start, rows[..|rows| - 1], upto, k);
      assert rows[..|rows| - 1][..k] == rows[..k];
    } else {
      assert rows[..k] == rows;
    }
  }

  /** The age buckets: up to 30 days, 31 to 90, over 90. They part the balance, and only items of their age go in. */
  method Buckets(items: seq<Item>, on: int) returns (b1: nat, b2: nat, b3: nat)
    ensures b1 == Aged(items, on, 0) && b2 == Aged(items, on, 1) && b3 == Aged(items, on, 2)
    ensures b1 == NoOlder(items, on, 30) && b1 + b2 == NoOlder(items, on, 90)
    ensures b1 + b2 + b3 == AllAmounts(items)
  {
    b1, b2, b3 := 0, 0, 0;
    for k := 0 to |items|
      invariant b1 == Aged(items[..k], on, 0) && b2 == Aged(items[..k], on, 1) && b3 == Aged(items[..k], on, 2)
    {
      assert items[..k + 1][..k] == items[..k];
      var days := on - items[k].date;
      if days <= 30 {
        b1 := b1 + Abs(items[k].amt);
      } else if days <= 90 {
        b2 := b2 + Abs(items[k].amt);
      } else {
        b3 := b3 + Abs(items[k].amt);
      }
    }
    assert items[..|items|] == items;
    AgesInDays(items, on);
  }

  /** The amounts of the items that are at most so many days old. */
  function NoOlder(items: seq<Item>, on: int, days: int): nat {
    if items == [] then 0
    else
      var x := items[|items| - 1];
      NoOlder(items[..|items| - 1], on, days) + (if x.date + days >= on then Abs(x.amt) else 0)
  }

  function AllAmounts(items: seq<Item>): nat {
    if items == [] then 0 else AllAmounts(items[..|items| - 1]) + Abs(items[|items| - 1].amt)
  }

  /** The buckets end after 30 days, after 90 days, and never. */
  lemma {:induction false} AgesInDays(items: seq<Item>, on: int)
    ensures Aged(items, on, 0) == NoOlder(items, on, 30)
    ensures Aged(items, on, 0) + Aged(items, on, 1) == NoOlder(items, on, 90)
    ensures Aged(items, on, 0) + Aged(items, on, 1) + Aged(items, on, 2) == AllAmounts(items)
  {
    if items != [] {
      AgesInDays(items[..|items| - 1], on);
    }
  }

  function BucketOf(days: int): nat {
    if days <= 30 then 0 else if days <= 90 then 1 else 2
  }

  function Aged(items: seq<Item>, on: int, bucket: nat): nat {
    if items == [] then 0
    else
      var x := items[|items| - 1];
      Aged(items[..|items| - 1], on, bucket) + (if BucketOf(on - x.date) == bucket then Abs(x.amt) else 0)
  }

  /** The three buckets of an account's open items add up to its balance. */
  lemma {:induction false} BucketsPartTheBalance(h: seq<Item>, on: int)
    ensures var items := OpenItems(h); Aged(items, on, 0) + Aged(items, on, 1) + Aged(items, on, 2) == Abs(Balance(h))
  {
    OpenItemsComeToTheBalance(h);
    AgedAddUp(OpenItems(h), on, Balance(h));
  }

  lemma {:induction false} AgedAddUp(items: seq<Item>, on: int, r: int)
    requires OneSide(items, r)
    ensures Aged(items, on, 0) + Aged(items, on, 1) + Aged(items, on, 2) == Abs(Balance(items))
  {
    if items != [] {
      AgedAddUp(items[..|items| - 1], on, r);
      BalanceOneSide(items[..|items| - 1], r);
    }
  }

  // ------------------------------------------------------------------ on a posted ledger

  function RowItems(rows: seq<Ledger.Row>): seq<Item> {
    if rows == [] then []
    else
      var r := rows[|rows| - 1];
      RowItems(rows[..|rows| - 1]) + [Item(r.date, r.dr - r.cr)]
  }

  lemma {:induction false} BalanceConcat(a: seq<Item>, b: seq<Item>)
    ensures Balance(a + b) == Balance(a) + Balance(b)
  {
    if b == [] {
      assert a + b == a;
    } else {
      assert (a + b)[..|a + b| - 1] == a + b[..|b| - 1];
      BalanceConcat(a, b[..|b| - 1]);
    }
  }

  lemma {:induction false} UptoBalance(rows: seq<Ledger.Row>, upto: int)
    ensures Balance(Upto(RowItems(rows), upto)) == Ledger.RowNet(rows, upto)
  {
    if rows != [] {
      var r := rows[|rows| - 1];
      var items := RowItems(rows);
      UptoBalance(rows[..|rows| - 1], upto);
      assert items[..|items| - 1] == RowItems(rows[..|rows| - 1]);
      var last := [Item(r.date, r.dr - r.cr)];
      assert last[..0] == [];
      BalanceConcat(Upto(items[..|items| - 1], upto), if r.date <= upto then last else []);
    }
  }

  /** The report's own check, on every account and every date: the open items add up to `balance_at`. */
  lemma {:induction false} OpenItemsOfALedger(opening: int, start: int, rows: seq<Ledger.Row>, upto: int)
    ensures Balance(OpenItems(History(opening, start, RowItems(rows), upto))) == Ledger.BalanceAt(opening, rows, upto)
  {
    var first := if opening != 0 then [Item(start, opening)] else [];
    var h := History(opening, start, RowItems(rows), upto);
    assert [Item(start, opening)][..0] == [];
    BalanceConcat(first, Upto(RowItems(rows), upto));
    UptoBalance(rows, upto);
    OpenItemsComeToTheBalance(h);
  }

  // ------------------------------------------------------------------ the debit queue with a credit pool

  /** Debits open, oldest first, and the credit not yet applied. */
  datatype Pooled = Pooled(queue: seq<Item>, pool: nat)

  function UseUp(queue: seq<Item>, c: nat): (seq<Item>, nat)
    decreases |queue|
  {
    if c == 0 || queue == [] then (queue, c)
    else
      var take := Min(c, Max0(queue[0].amt));
      var left := queue[0].amt - take;
      if left == 0 then UseUp(queue[1..], c - take) else (queue[0 := queue[0].(amt := left)], c - take)
  }

  function PoolStep(s: Pooled, x: Item): Pooled {
    if x.amt > 0 then
      var use := Min(s.pool, x.amt);
      Pooled(if x.amt - use != 0 then s.queue + [Item(x.date, x.amt - use)] else s.queue, s.pool - use)
    else
      var (queue, c) := UseUp(s.queue, -x.amt);
      Pooled(queue, s.pool + c)
  }

  function Pool(h: seq<Item>): Pooled {
    if h == [] then Pooled([], 0) else PoolStep(Pool(h[..|h| - 1]), h[|h| - 1])
  }

  /** The same account in the two forms: its debits open, or its credits open as one pool. */
  predicate SameAccount(items: seq<Item>, s: Pooled) {
    && (s.queue == [] || s.pool == 0)
    && (if Balance(items) > 0 then s.queue == items else s.queue == [] && s.pool == -Balance(items))
  }

  /** Taking credits off the front is the same in both. */
  lemma {:induction false} UseUpIsSettle(items: seq<Item>, c: nat)
    requires OneSide(items, 1)
    ensures Settle(items, 0 - c) == (UseUp(items, c).0, 0 - UseUp(items, c).1)
    ensures UseUp(items, c).0 != [] ==> UseUp(items, c).1 == 0
    ensures OneSide(UseUp(items, c).0, 1)
    decreases |items|
  {
    if c != 0 && items != [] {
      assert SameSign(items[0].amt, 1);
      if items[0].amt <= c {
        UseUpIsSettle(items[1..], c - items[0].amt);
      }
    }
  }

  /** A debit against open credits only: what the pool does not cover is the one item left. */
  lemma {:induction false} DebitAgainstCredits(items: seq<Item>, x: Item)
    requires OneSide(items, -1) && x.amt > 0
    ensures Balance(items) + x.amt > 0 ==> Step(items, x) == [Item(x.date, Balance(items) + x.amt)]
  {
    BalanceOneSide(items, -1);
    if items != [] && Balance(items) + x.amt > 0 {
      SettleAll(items, Balance(items), x.amt);
    } else {
      assert items == [] ==> items + [x] == [x];
    }
  }

  lemma {:induction false} DebitKeepsAccount(items: seq<Item>, s: Pooled, x: Item)
    requires SameAccount(items, s) && OneSide(items, Balance(items)) && x.amt > 0
    requires Balance(Step(items, x)) == Balance(items) + x.amt
    ensures SameAccount(Step(items, x), PoolStep(s, x))
  {
    if Balance(items) > 0 {
      StepAway(items, Balance(items), x);
    } else {
      assert OneSide(items, -1);
      DebitAgainstCredits(items, x);
    }
  }

  lemma {:induction false} CreditKeepsAccount(items: seq<Item>, s: Pooled, x: Item)
    requires SameAccount(items, s) && OneSide(items, Balance(items)) && x.amt <= 0
    requires Balance(Step(items, x)) == Balance(items) + x.amt
    ensures SameAccount(Step(items, x), PoolStep(s, x))
  {
    if Balance(items) > 0 {
      UseUpIsSettle(items, -x.amt);
      var (queue, c) := UseUp(items, -x.amt);
      BalanceOneSide(queue, 1);
      if queue == [] && c != 0 {
        assert Step(items, x) == [Item(x.date, 0 - c)];
        assert [Item(x.date, 0 - c)][..0] == [];
      }
    }
  }

  /** Over every history the debit queue with its pool and the signed queue hold the same account, and the queue and
      the pool are never both in use. */
  lemma {:induction false} PoolIsTheSignedQueue(h: seq<Item>)
    ensures SameAccount(OpenItems(h), Pool(h))
  {
    if h != [] {
      var pre, x := h[..|h| - 1], h[|h| - 1];
      PoolIsTheSignedQueue(pre);
      OpenItemsComeToTheBalance(pre);
      OpenItemsComeToTheBalance(h);
      if x.amt > 0 {
        DebitKeepsAccount(OpenItems(pre), Pool(pre), x);
      } else {
        CreditKeepsAccount(OpenItems(pre), Pool(pre), x);
      }
    }
  }

  /** The oldest open debit and the total of them, or nothing. */
  datatype Ageing = NothingOpen | OpenSince(oldest: int, total: int)

  method UseUpLoop(queue0: seq<Item>, c0: nat) returns (queue: seq<Item>, c: nat)
    requires OneSide(queue0, 1)
    ensures (queue, c) == UseUp(queue0, c0)
  {
    queue, c := queue0, c0;
    while c != 0 && queue != []
      invariant OneSide(queue, 1)
      invariant UseUp(queue, c) == UseUp(queue0, c0)
      decreases |queue|, c
    {
      var take := Min(c, queue[0].amt);
      c := c - take;
      var left := queue[0].amt - take;
      queue := if left == 0 then queue[1..] else queue[0 := queue[0].(amt := left)];
    }
  }

  lemma PoolNext(rows: seq<Item>, k: nat)
    requires k < |rows|
    ensures Pool(rows[..k + 1]) == PoolStep(Pool(rows[..k]), rows[k])
    ensures OneSide(Pool(rows[..k]).queue, 1)
  {
    assert rows[..k + 1][..k] == rows[..k];
    PoolIsTheSignedQueue(rows[..k]);
    OpenItemsComeToTheBalance(rows[..k]);
  }

  /** `fifo_ageing`: it answers nothing when the balance is not Dr, and otherwise the oldest date and the total of the
      signed queue's open items. */
  method FifoAgeing(rows: seq<Item>) returns (out: Ageing)
    ensures Balance(rows) <= 0 ==> out == NothingOpen
    ensures Balance(rows) > 0 ==>
         OpenItems(rows) != [] && out == OpenSince(OpenItems(rows)[0].date, Balance(OpenItems(rows)))
  {
    var queue, pool: nat := [], 0;
    for k := 0 to |rows|
      invariant Pooled(queue, pool) == Pool(rows[..k])
    {
      PoolNext(rows, k);
      var p := rows[k].amt;
      if p > 0 {
        var use := Min(pool, p);
        pool, p := pool - use, p - use;
        if p != 0 {
          queue := queue + [Item(rows[k].date, p)];
        }
      } else {
        var c;
        queue, c := UseUpLoop(queue, -p);
        pool := pool + c;
      }
    }
    assert rows[..|rows|] == rows;
    PoolIsTheSignedQueue(rows);
    OpenItemsComeToTheBalance(rows);
    if queue == [] {
      out := NothingOpen;
    } else {
      out := OpenSince(queue[0].date, Balance(queue));
    }
  }
}
