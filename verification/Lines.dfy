/** The lines of one entry: signed paise on accounts, + on the Dr side. */
module Lines {
  import opened Totals

  datatype Line = Line(acct: nat, amt: int)

  /** All the lines together; a double entry nets to nil. */
  function Net(ls: seq<Line>): int {
    if ls == [] then 0 else Net(ls[..|ls| - 1]) + ls[|ls| - 1].amt
  }

  /** What the lines do to one account. */
  function Delta(ls: seq<Line>, i: int): int {
    if ls == [] then 0
    else Delta(ls[..|ls| - 1], i) + (if ls[|ls| - 1].acct == i then ls[|ls| - 1].amt else 0)
  }

  predicate InChart(ls: seq<Line>, n: nat) {
    forall k :: 0 <= k < |ls| ==> ls[k].acct < n
  }

  function DeltaOf(ls: seq<Line>): int -> int {
    i => Delta(ls, i)
  }

  /** Adding an entry's effect account by account, or its lines one after another, is the same. */
  lemma {:induction false} DeltasAddUp(ls: seq<Line>, n: nat)
    requires InChart(ls, n)
    ensures SumTo(DeltaOf(ls), n) == Net(ls)
  {
    if ls == [] {
      SumToZero(DeltaOf(ls), n);
    } else {
      var pre, last := ls[..|ls| - 1], ls[|ls| - 1];
      DeltasAddUp(pre, n);
      var point := (i: int) => if i == last.acct then last.amt else 0;
      SumToPoint(point, last.acct, last.amt, n);
      SumToAdd(DeltaOf(pre), point, DeltaOf(ls), n);
    }
  }

  lemma {:induction false} DeltaConcat(a: seq<Line>, b: seq<Line>, i: int)
    ensures Delta(a + b, i) == Delta(a, i) + Delta(b, i)
    ensures Net(a + b) == Net(a) + Net(b)
  {
    if b == [] {
      assert a + b == a;
    } else {
      assert (a + b)[..|a + b| - 1] == a + b[..|b| - 1];
      DeltaConcat(a, b[..|b| - 1], i);
    }
  }
}
