/** Two books that keep accounts for each other: entries that agree one for one, running accounts that agree, and
    the profit kept in a business its owner holds at the money put in. */
module Family {
  import opened Totals
  import opened Ledger
  import opened YearClose
  import opened Reports

  /** A date and a signed amount. */
  type Entry = (int, int)

  function RowEntries(rows: seq<Row>): seq<Entry> {
    if rows == [] then []
    else
      var r := rows[|rows| - 1];
      RowEntries(rows[..|rows| - 1]) + [(r.date, r.dr - r.cr)]
  }

  /** The entries of a book on some of its accounts, account by account. */
  function PairEntries(b: BookData, names: set<int>, n: nat): seq<Entry>
    requires n <= N(b)
  {
    if n == 0 then []
    else if n - 1 in names then PairEntries(b, names, n - 1) + RowEntries(Rows(b, n - 1))
    else PairEntries(b, names, n - 1)
  }

  /** The same entries seen from the other book. */
  function Mirror(es: seq<Entry>): seq<Entry> {
    seq(|es|, k requires 0 <= k < |es| => (es[k].0, -es[k].1))
  }

  function Amounts(es: seq<Entry>): int {
    if es == [] then 0 else Amounts(es[..|es| - 1]) + es[|es| - 1].1
  }

  // ------------------------------------------------------------------ matching entry for entry

  /** The places of an entry, first to last. */
  function Places(es: seq<Entry>, e: Entry, n: nat): seq<nat>
    requires n <= |es|
  {
    if n == 0 then []
    else if es[n - 1] == e then Places(es, e, n - 1) + [n - 1]
    else Places(es, e, n - 1)
  }

  function Count(es: seq<Entry>, e: Entry): nat {
    multiset(es)[e]
  }

  lemma {:induction false} PlacesAreThePlaces(es: seq<Entry>, e: Entry, n: nat)
    requires n <= |es|
    ensures |Places(es, e, n)| == Count(es[..n], e)
    ensures forall k :: 0 <= k < |Places(es, e, n)| ==> Places(es, e, n)[k] < n && es[Places(es, e, n)[k]] == e
    ensures forall j, k :: 0 <= j < k < |Places(es, e, n)| ==> Places(es, e, n)[j] < Places(es, e, n)[k]
  {
    if n > 0 {
      PlacesAreThePlaces(es, e, n - 1);
      assert es[..n] == es[..n - 1] + [es[n - 1]];
    }
  }

  function ListAt(left: map<Entry, seq<nat>>, e: Entry): seq<nat> {
    if e in left then left[e] else []
  }

  /** The places of the first `j` entries, each under its entry. */
  ghost predicate FiledUpTo(left: map<Entry, seq<nat>>, es: seq<Entry>, j: nat) {
    j <= |es| && forall e :: ListAt(left, e) == Places(es, e, j)
  }

  function FileAt(left: map<Entry, seq<nat>>, es: seq<Entry>, j: nat): map<Entry, seq<nat>>
    requires j < |es|
  {
    left[es[j] := ListAt(left, es[j]) + [j]]
  }

  lemma FileOne(before: map<Entry, seq<nat>>, left: map<Entry, seq<nat>>, es: seq<Entry>, j: nat)
    requires j < |es| && FiledUpTo(before, es, j)
    requires left == FileAt(before, es, j)
    ensures FiledUpTo(left, es, j + 1)
  {
    forall e ensures ListAt(left, e) == Places(es, e, j + 1) {
      assert ListAt(before, e) == Places(es, e, j);
    }
  }

  /** Every entry of the other book, under the entry it must meet. */
  method FileEntries(es: seq<Entry>) returns (left: map<Entry, seq<nat>>)
    ensures FiledUpTo(left, es, |es|)
  {
    left := map[];
    for j := 0 to |es|
      invariant FiledUpTo(left, es, j)
    {
      FileOne(left, FileAt(left, es, j), es, j);
      left := FileAt(left, es, j);
    }
  }

  lemma CountNext(es: seq<Entry>, k: nat, e: Entry)
    requires k < |es|
    ensures Count(es[..k + 1], e) == Count(es[..k], e) + (if es[k] == e then 1 else 0)
    ensures Count(es[..k], e) <= Count(es, e)
  {
    assert es[..k + 1] == es[..k] + [es[k]];
    assert es == es[..k] + es[k..];
  }

  lemma SameCounts(a: seq<Entry>, b: seq<Entry>)
    ensures multiset(a) == multiset(b) <==> forall e :: Count(a, e) == Count(b, e)
  {
    if forall e :: Count(a, e) == Count(b, e) {
      forall e: Entry ensures multiset(a)[e] == multiset(b)[e] {
        assert Count(a, e) == Count(b, e);
      }
    }
  }

  ghost predicate FiledAt(left: map<Entry, seq<nat>>, es: seq<Entry>, mine: seq<Entry>, k: nat, e: Entry)
    requires k <= |mine|
  {
    Count(mine[..k], e) <= |Places(es, e, |es|)| && ListAt(left, e) == Places(es, e, |es|)[Count(mine[..k], e)..]
  }

  /** After the first `k` entries have taken their partners, these are left. */
  ghost predicate Filed(left: map<Entry, seq<nat>>, es: seq<Entry>, mine: seq<Entry>, k: nat) {
    k <= |mine| && forall e :: FiledAt(left, es, mine, k, e)
  }

  /** Entry `j` of `mine` took place `p`: the first place its like had not taken. */
  ghost predicate Taken(es: seq<Entry>, mine: seq<Entry>, j: nat, p: nat) {
    && j < |mine|
    && var ps := Places(es, mine[j], |es|);
       var c := Count(mine[..j], mine[j]);
       c < |ps| && p == ps[c]
  }

  ghost predicate AllTaken(es: seq<Entry>, mine: seq<Entry>, partner: seq<nat>) {
    forall j :: 0 <= j < |partner| ==> Taken(es, mine, j, partner[j])
  }

  lemma NothingTakenYet(left: map<Entry, seq<nat>>, es: seq<Entry>, mine: seq<Entry>)
    requires FiledUpTo(left, es, |es|)
    ensures Filed(left, es, mine, 0) && AllTaken(es, mine, [])
  {
    var k := 0;
    forall e ensures FiledAt(left, es, mine, k, e) {
      assert ListAt(left, e) == Places(es, e, |es|);
    }
  }

  lemma TakeOne(left: map<Entry, seq<nat>>, es: seq<Entry>, mine: seq<Entry>, k: nat, places: seq<nat>,
      partner: seq<nat>)
    requires k == |partner| < |mine| && Filed(left, es, mine, k) && AllTaken(es, mine, partner)
    requires places == ListAt(left, mine[k]) && places != []
    ensures Filed(left[mine[k] := places[1..]], es, mine, k + 1)
    ensures AllTaken(es, mine, partner + [places[0]])
  {
    var e, n := mine[k], k + 1;
    var next := left[e := places[1..]];
    assert FiledAt(left, es, mine, k, e);
    forall x ensures FiledAt(next, es, mine, n, x) {
      assert FiledAt(left, es, mine, k, x);
      CountNext(mine, k, x);
    }
    assert Taken(es, mine, k, places[0]);
  }

  lemma NoneLeft(left: map<Entry, seq<nat>>, es: seq<Entry>, mine: seq<Entry>, k: nat)
    requires Filed(left, es, mine, k) && k < |mine| && ListAt(left, mine[k]) == []
    ensures multiset(mine) != multiset(es)
  {
    var e := mine[k];
    assert FiledAt(left, es, mine, k, e);
    PlacesAreThePlaces(es, e, |es|);
    assert es[..|es|] == es;
    CountNext(mine, k, e);
    CountGrows(mine, k + 1, |mine|, e);
    assert mine[..|mine|] == mine;
    SameCounts(mine, es);
  }

  predicate NothingIn(left: map<Entry, seq<nat>>) {
    forall e :: e in left ==> left[e] == []
  }

  lemma NothingLeft(left: map<Entry, seq<nat>>, es: seq<Entry>, mine: seq<Entry>)
    requires Filed(left, es, mine, |mine|)
    ensures NothingIn(left) <==> multiset(mine) == multiset(es)
  {
    assert mine[..|mine|] == mine && es[..|es|] == es;
    SameCounts(mine, es);
    forall e ensures |ListAt(left, e)| == Count(es, e) - Count(mine, e) {
      assert FiledAt(left, es, mine, |mine|, e);
      PlacesAreThePlaces(es, e, |es|);
    }
    if NothingIn(left) {
      forall e ensures Count(mine, e) == Count(es, e) {
        assert |ListAt(left, e)| == 0;
      }
    } else {
      var e :| e in left && left[e] != [];
      assert |ListAt(left, e)| > 0;
    }
  }

  lemma CountGrows(es: seq<Entry>, j: nat, k: nat, e: Entry)
    requires j <= k <= |es|
    ensures Count(es[..j], e) <= Count(es[..k], e)
  {
    assert es[..k] == es[..j] + es[j..k];
  }

  lemma TakenOnce(es: seq<Entry>, mine: seq<Entry>, j: nat, k: nat, p: nat, q: nat)
    requires j < k < |mine| && Taken(es, mine, j, p) && Taken(es, mine, k, q)
    ensures p != q && p < |es| && es[p] == mine[j]
  {
    PlacesAreThePlaces(es, mine[j], |es|);
    PlacesAreThePlaces(es, mine[k], |es|);
    if mine[j] == mine[k] {
      CountNext(mine, j, mine[j]);
      CountGrows(mine, j + 1, k, mine[j]);
    }
  }

  /** Every entry has a partner of its own, equal to it. */
  ghost predicate OneForOne(es: seq<Entry>, mine: seq<Entry>, partner: seq<nat>) {
    && |partner| == |mine|
    && (forall k :: 0 <= k < |mine| ==> partner[k] < |es| && es[partner[k]] == mine[k])
    && (forall j, k :: 0 <= j < k < |mine| ==> partner[j] != partner[k])
  }

  lemma SameLength(a: seq<Entry>, b: seq<Entry>)
    ensures multiset(a) == multiset(b) ==> |a| == |b|
  {
    assert |multiset(a)| == |a| && |multiset(b)| == |b|;
  }

  lemma TakenOneForOne(es: seq<Entry>, mine: seq<Entry>, partner: seq<nat>)
    requires |partner| == |mine| && AllTaken(es, mine, partner)
    ensures OneForOne(es, mine, partner)
  {
    forall k | 0 <= k < |mine| ensures partner[k] < |es| && es[partner[k]] == mine[k] {
      PlacesAreThePlaces(es, mine[k], |es|);
    }
    forall j, k | 0 <= j < k < |mine| ensures partner[j] != partner[k] {
      TakenOnce(es, mine, j, k, partner[j], partner[k]);
    }
  }

  /** The next entry takes the first place left. */
  method TakePlace(left0: map<Entry, seq<nat>>, ghost es: seq<Entry>, mine: seq<Entry>, places: seq<nat>,
      partner0: seq<nat>)
    returns (left: map<Entry, seq<nat>>, partner: seq<nat>)
    requires |partner0| < |mine| && Filed(left0, es, mine, |partner0|) && AllTaken(es, mine, partner0)
    requires places == ListAt(left0, mine[|partner0|]) && places != []
    ensures |partner| == |partner0| + 1 && Filed(left, es, mine, |partner|) && AllTaken(es, mine, partner)
  {
    TakeOne(left0, es, mine, |partner0|, places, partner0);
    partner := partner0 + [places[0]];
    left := left0[mine[|partner0|] := places[1..]];
  }

  /** Each entry takes its place, unless none is left for one of them. */
  method TakeEntries(es: seq<Entry>, mine: seq<Entry>)
      returns (all: bool, left: map<Entry, seq<nat>>, partner: seq<nat>)
    ensures all ==> Filed(left, es, mine, |mine|) && |partner| == |mine| && AllTaken(es, mine, partner)
    ensures !all ==> multiset(mine) != multiset(es)
  {
    all, partner := true, [];
    left := FileEntries(es);
    NothingTakenYet(left, es, mine);
    for k := 0 to |mine|
      invariant |partner| == k
      invariant Filed(left, es, mine, k) && AllTaken(es, mine, partner)
    {
      var places := ListAt(left, mine[k]);
      if places == [] {
        NoneLeft(left, es, mine, k);
        return false, left, partner;
      }
      left, partner := TakePlace(left, es, mine, places, partner);
    }
  }

  /** Each entry of one book takes the first entry left that mirrors it in the other. It goes through exactly when
      the two books hold the same entries on opposite sides, and then it pairs them one for one. */
  method MatchEntries(mine: seq<Entry>, theirs: seq<Entry>) returns (ok: bool, partner: seq<nat>)
    ensures ok <==> multiset(mine) == multiset(Mirror(theirs))
    ensures ok ==> |mine| == |theirs| && OneForOne(Mirror(theirs), mine, partner)
  {
    var es := Mirror(theirs);
    var all, left, taken := TakeEntries(es, mine);
    if !all {
      return false, [];
    }
    ok, partner := NothingIn(left), taken;
    NothingLeft(left, es, mine);
    TakenOneForOne(es, mine, partner);
    SameLength(mine, es);
  }

  // ------------------------------------------------------------------ sums of agreeing entries

  lemma {:induction false} AmountsWithout(es: seq<Entry>, k: nat)
    requires k < |es|
    ensures Amounts(es[..k] + es[k + 1..]) == Amounts(es) - es[k].1
  {
    var last := |es| - 1;
    if k == last {
      assert es[..k] + es[k + 1..] == es[..last];
    } else {
      AmountsWithout(es[..last], k);
      var out := es[..k] + es[k + 1..];
      assert out[..|out| - 1] == es[..last][..k] + es[..last][k + 1..];
    }
  }

  lemma SameWithoutLast(a: seq<Entry>, b: seq<Entry>) returns (k: nat)
    requires a != [] && multiset(a) == multiset(b)
    ensures k < |b| && b[k] == a[|a| - 1] && multiset(a[..|a| - 1]) == multiset(b[..k] + b[k + 1..])
  {
    var e := a[|a| - 1];
    assert a == a[..|a| - 1] + [e];
    assert e in multiset(b);
    k :| 0 <= k < |b| && b[k] == e;
    assert b == b[..k] + [e] + b[k + 1..];
    assert multiset(b[..k] + b[k + 1..]) == multiset(b) - multiset{e} == multiset(a[..|a| - 1]);
  }

  /** The same entries in any order come to the same amount. */
  lemma {:induction false} AmountsOfSameEntries(a: seq<Entry>, b: seq<Entry>)
    requires multiset(a) == multiset(b)
    ensures Amounts(a) == Amounts(b)
  {
    if a == [] {
      SameLength(a, b);
    } else {
      var k := SameWithoutLast(a, b);
      AmountsOfSameEntries(a[..|a| - 1], b[..k] + b[k + 1..]);
      AmountsWithout(b, k);
    }
  }

  lemma {:induction false} MirrorTurnsAmounts(es: seq<Entry>)
    ensures Amounts(Mirror(es)) == -Amounts(es)
  {
    if es != [] {
      MirrorTurnsAmounts(es[..|es| - 1]);
      assert Mirror(es)[..|es| - 1] == Mirror(es[..|es| - 1]);
    }
  }

  lemma {:induction false} AmountsConcat(a: seq<Entry>, b: seq<Entry>)
    ensures Amounts(a + b) == Amounts(a) + Amounts(b)
  {
    if b == [] {
      assert a + b == a;
    } else {
      assert (a + b)[..|a + b| - 1] == a + b[..|b| - 1];
      AmountsConcat(a, b[..|b| - 1]);
    }
  }

  lemma {:induction false} RowAmounts(opening: int, ps: seq<Posting>, i: int)
    ensures Amounts(RowEntries(RowsOf(opening, ps, i))) == MovedAll(ps, i)
  {
    if ps != [] {
      RowAmounts(opening, ps[..|ps| - 1], i);
      var pre, rows := RowsOf(opening, ps[..|ps| - 1], i), RowsOf(opening, ps, i);
      if ps[|ps| - 1].acct == i {
        assert rows[..|rows| - 1] == pre;
        var es := RowEntries(rows);
        assert es[..|es| - 1] == RowEntries(pre);
      } else {
        assert rows == pre;
      }
    }
  }

  /** The figures of the named accounts of some kinds. */
  function Named(b: BookData, names: set<int>, p: Kind -> bool, f: int -> int): int -> int {
    i => if 0 <= i < N(b) && i in names && p(b.chart[i].kind) then f(i) else 0
  }

  function NamedTotal(b: BookData, names: set<int>, p: Kind -> bool, f: int -> int): int {
    SumTo(Named(b, names, p, f), N(b))
  }

  lemma AccountEntriesAddUp(b: BookData, i: nat)
    requires i < N(b)
    ensures Amounts(RowEntries(Rows(b, i))) == Closing(b)(i) - Opening(b)(i)
  {
    RowAmounts(b.chart[i].opening, Postings(b.vouchers), i);
  }

  lemma {:induction false} PairEntriesAddUp(b: BookData, names: set<int>, n: nat)
    requires n <= N(b)
    ensures Amounts(PairEntries(b, names, n))
         == SumTo(Named(b, names, AnyKind, Closing(b)), n) - SumTo(Named(b, names, AnyKind, Opening(b)), n)
  {
    if n > 0 {
      PairEntriesAddUp(b, names, n - 1);
      AccountEntriesAddUp(b, n - 1);
      if n - 1 in names {
        AmountsConcat(PairEntries(b, names, n - 1), RowEntries(Rows(b, n - 1)));
      }
    }
  }

  lemma NamedSplit(b: BookData, names: set<int>, f: int -> int, p: Kind -> bool, q: Kind -> bool, r: Kind -> bool)
    requires forall k :: r(k) <==> p(k) || q(k)
    requires forall k :: !(p(k) && q(k))
    ensures NamedTotal(b, names, r, f) == NamedTotal(b, names, p, f) + NamedTotal(b, names, q, f)
  {
    forall i | 0 <= i < N(b)
      ensures Named(b, names, r, f)(i) == Named(b, names, p, f)(i) + Named(b, names, q, f)(i)
    {
      var k := b.chart[i].kind;
      assert r(k) <==> p(k) || q(k);
      assert !(p(k) && q(k));
    }
    SumToAdd(Named(b, names, p, f), Named(b, names, q, f), Named(b, names, r, f), N(b));
  }

  // ------------------------------------------------------------------ two books that agree

  /** The source's two assertions on a pair: the balances brought forward are opposite, and the entries are the same
      on opposite sides. Income and expense heads bring nothing forward. */
  predicate PairAgrees(b: BookData, mine: set<int>, ob: BookData, theirs: set<int>) {
    && NamedTotal(b, mine, IsBs, Opening(b)) == -NamedTotal(ob, theirs, IsBs, Opening(ob))
    && multiset(PairEntries(b, mine, N(b))) == multiset(Mirror(PairEntries(ob, theirs, N(ob))))
  }

  /** Opening balances of income and expense heads: the source prints them as nil and does not check that they are. */
  function HeadOpenings(b: BookData, names: set<int>): int {
    NamedTotal(b, names, IsHead, Opening(b))
  }

  /** Before the close the two sides of a pair stand opposite, the heads' openings apart. */
  lemma PairClosings(b: BookData, mine: set<int>, ob: BookData, theirs: set<int>)
    requires PairAgrees(b, mine, ob, theirs)
    ensures NamedTotal(b, mine, AnyKind, Closing(b)) - HeadOpenings(b, mine)
         == -(NamedTotal(ob, theirs, AnyKind, Closing(ob)) - HeadOpenings(ob, theirs))
  {
    PairEntriesAddUp(b, mine, N(b));
    PairEntriesAddUp(ob, theirs, N(ob));
    AmountsOfSameEntries(PairEntries(b, mine, N(b)), Mirror(PairEntries(ob, theirs, N(ob))));
    MirrorTurnsAmounts(PairEntries(ob, theirs, N(ob)));
    NamedSplit(b, mine, Opening(b), IsBs, IsHead, AnyKind);
    NamedSplit(ob, theirs, Opening(ob), IsBs, IsHead, AnyKind);
  }
}
