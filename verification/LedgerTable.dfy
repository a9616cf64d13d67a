/** The printed ledger of one account, with the rows of the year close under the rows of the year. */
module LedgerTable {
  import opened Totals
  import opened Ledger
  import opened Sharing
  import opened YearClose
  import opened Reports
  import opened CloseExact

  /** The close entries' lines on one account, in order. */
  function ClosePosts(es: seq<seq<CloseLine>>, h: Head): seq<int> {
    if es == [] then [] else ClosePosts(es[..|es| - 1], h) + LinePosts(es[|es| - 1], h)
  }

  function LinePosts(ls: seq<CloseLine>, h: Head): seq<int> {
    if ls == [] then []
    else LinePosts(ls[..|ls| - 1], h) + (if ls[|ls| - 1].head == h then [ls[|ls| - 1].amt] else [])
  }

  lemma {:induction false} SumConcat(a: seq<int>, b: seq<int>)
    ensures Sum(a + b) == Sum(a) + Sum(b)
  {
    if b == [] {
      assert a + b == a;
    } else {
      assert (a + b)[..|a + b| - 1] == a + b[..|b| - 1];
      SumConcat(a, b[..|b| - 1]);
    }
  }

  lemma {:induction false} LinePostsAddUp(ls: seq<CloseLine>, h: Head)
    ensures Sum(LinePosts(ls, h)) == HeadDelta(ls, h)
  {
    if ls != [] {
      LinePostsAddUp(ls[..|ls| - 1], h);
      var l := ls[|ls| - 1];
      assert Sum([l.amt]) == Sum([l.amt][..0]) + l.amt;
      SumConcat(LinePosts(ls[..|ls| - 1], h), if l.head == h then [l.amt] else []);
    }
  }

  lemma {:induction false} ClosePostsAddUp(es: seq<seq<CloseLine>>, h: Head)
    ensures Sum(ClosePosts(es, h)) == Closed(es, h)
  {
    if es != [] {
      ClosePostsAddUp(es[..|es| - 1], h);
      LinePostsAddUp(es[|es| - 1], h);
      SumConcat(ClosePosts(es[..|es| - 1], h), LinePosts(es[|es| - 1], h));
    }
  }

  function DrOf(rows: seq<Row>): nat {
    if rows == [] then 0 else DrOf(rows[..|rows| - 1]) + rows[|rows| - 1].dr
  }

  function CrOf(rows: seq<Row>): nat {
    if rows == [] then 0 else CrOf(rows[..|rows| - 1]) + rows[|rows| - 1].cr
  }

  /** The Dr side and the Cr side of the close rows. */
  function PostsOn(posts: seq<int>, dr: bool): nat {
    if posts == [] then 0
    else PostsOn(posts[..|posts| - 1], dr) + Max0(if dr then posts[|posts| - 1] else -posts[|posts| - 1])
  }

  lemma {:induction false} PostSidesDiffer(posts: seq<int>)
    ensures PostsOn(posts, true) - PostsOn(posts, false) == Sum(posts)
  {
    if posts != [] {
      PostSidesDiffer(posts[..|posts| - 1]);
    }
  }

  /** The table: balance brought forward, the rows, the close rows, balance carried down. Any rows, any opening:
      the running balance ends at opening + Dr - Cr, and the two columns of a carried account agree. */
  method Table(bs: bool, opening: int, rows: seq<Row>, posts: seq<int>)
    returns (tdr: nat, tcr: nat, closing: int, total: int, total2: int)
    requires !bs ==> opening == 0
    ensures tdr == DrOf(rows) + (if bs then PostsOn(posts, true) else 0)
    ensures tcr == CrOf(rows) + (if bs then PostsOn(posts, false) else 0)
    ensures closing == opening + DrOf(rows) - CrOf(rows) + (if bs then Sum(posts) else 0)
    ensures total == tdr + Max0(opening) + Max0(-closing) && total2 == tcr + Max0(-opening) + Max0(closing)
    ensures total == total2
  {
    tdr, tcr := 0, 0;
    var bal := opening;
    for k := 0 to |rows|
      invariant tdr == DrOf(rows[..k]) && tcr == CrOf(rows[..k]) && bal == opening + tdr - tcr
    {
      assert rows[..k + 1][..k] == rows[..k];
      bal := bal + rows[k].dr - rows[k].cr;
      tdr := tdr + rows[k].dr;
      tcr := tcr + rows[k].cr;
    }
    assert rows[..|rows|] == rows;
    if bs {
      for k := 0 to |posts|
        invariant tdr == DrOf(rows) + PostsOn(posts[..k], true) && tcr == CrOf(rows) + PostsOn(posts[..k], false)
        invariant bal == opening + tdr - tcr
      {
        assert posts[..k + 1][..k] == posts[..k];
        bal := bal + posts[k];
        if posts[k] > 0 {
          tdr := tdr + posts[k];
        } else {
          tcr := tcr - posts[k];
        }
      }
      assert posts[..|posts|] == posts;
      PostSidesDiffer(posts);
    }
    closing := bal;
    total := tdr + Max0(opening) + Max0(-closing);
    total2 := tcr + Max0(-opening) + Max0(closing);
  }

  lemma {:induction false} RowsNetAll(rows: seq<Row>, date: int)
    requires forall k :: 0 <= k < |rows| ==> rows[k].date <= date
    ensures RowNet(rows, date) == DrOf(rows) - CrOf(rows)
  {
    if rows != [] {
      RowsNetAll(rows[..|rows| - 1], date);
    }
  }

  /** The year's ledger of a carried account, close rows included, is brought forward at its opening and
      carried down at exactly the balance the next year opens with. */
  lemma YearLedgerCarriesDown(b: BookData, ps: seq<Partner>, i: int)
    requires Balanced(b) && CanClose(b.chart, ps, Closing(b)) && 0 <= i < N(b)
    ensures var es := CloseEntries(b.chart, ps, Closing(b)).value;
      && BalAt(b, FY_START - 1)(i) == Opening(b)(i)
      && Opening(b)(i) + DrOf(Rows(b, i)) - CrOf(Rows(b, i)) + Sum(ClosePosts(es, InBook(i))) == After(b, ps)(i)
  {
    BeforeTheYearIsOpening(b, i, FY_START - 1);
    ClosingIsBalanceAtYearEnd(b, i);
    RowsNetAll(Rows(b, i), FY_END);
    ClosePostsAddUp(CloseEntries(b.chart, ps, Closing(b)).value, InBook(i));
  }
}
