/** The book object: entries are written in any order, sorted by date, checked, posted, and closed. */
module BookPosting {
  import opened Totals
  import opened Lines
  import opened Ledger
  import opened Options
  import opened YearClose

  // ------------------------------------------------------------------ posting order

  function InsertByDate(vs: seq<Voucher>, v: Voucher): seq<Voucher> {
    if vs == [] || vs[|vs| - 1].date <= v.date then vs + [v]
    else InsertByDate(vs[..|vs| - 1], v) + [vs[|vs| - 1]]
  }

  /** The entries by date, those of one day in the order they were written. */
  function SortByDate(vs: seq<Voucher>): seq<Voucher> {
    if vs == [] then [] else InsertByDate(SortByDate(vs[..|vs| - 1]), vs[|vs| - 1])
  }

  /** The entries of one day, in order. */
  function OnDay(vs: seq<Voucher>, date: int): seq<Voucher> {
    if vs == [] then []
    else if vs[|vs| - 1].date == date then OnDay(vs[..|vs| - 1], date) + [vs[|vs| - 1]]
    else OnDay(vs[..|vs| - 1], date)
  }

  lemma {:induction false} InsertIsBounded(vs: seq<Voucher>, v: Voucher, date: int)
    requires forall k :: 0 <= k < |vs| ==> vs[k].date <= date
    requires v.date <= date
    ensures forall k :: 0 <= k < |InsertByDate(vs, v)| ==> InsertByDate(vs, v)[k].date <= date
  {
    if vs != [] && vs[|vs| - 1].date > v.date {
      InsertIsBounded(vs[..|vs| - 1], v, date);
    }
  }

  lemma {:induction false} InsertKeepsOrder(vs: seq<Voucher>, v: Voucher)
    requires ByDate(vs)
    ensures ByDate(InsertByDate(vs, v))
  {
    if vs != [] && vs[|vs| - 1].date > v.date {
      InsertKeepsOrder(vs[..|vs| - 1], v);
      InsertIsBounded(vs[..|vs| - 1], v, vs[|vs| - 1].date);
    }
  }

  lemma {:induction false} InsertKeepsEntries(vs: seq<Voucher>, v: Voucher)
    ensures multiset(InsertByDate(vs, v)) == multiset(vs) + multiset{v}
  {
    if vs != [] && vs[|vs| - 1].date > v.date {
      InsertKeepsEntries(vs[..|vs| - 1], v);
      assert vs == vs[..|vs| - 1] + [vs[|vs| - 1]];
    }
  }

  lemma {:induction false} InsertKeepsDays(vs: seq<Voucher>, v: Voucher, date: int)
    ensures OnDay(InsertByDate(vs, v), date) == OnDay(vs, date) + (if v.date == date then [v] else [])
  {
    var out := InsertByDate(vs, v);
    if vs == [] || vs[|vs| - 1].date <= v.date {
      assert out[..|out| - 1] == vs;
    } else {
      var pre, last := vs[..|vs| - 1], vs[|vs| - 1];
      InsertKeepsDays(pre, v, date);
      assert out[..|out| - 1] == InsertByDate(pre, v);
    }
  }

  lemma {:induction false} SortIsOrdered(vs: seq<Voucher>)
    ensures ByDate(SortByDate(vs))
  {
    if vs != [] {
      SortIsOrdered(vs[..|vs| - 1]);
      InsertKeepsOrder(SortByDate(vs[..|vs| - 1]), vs[|vs| - 1]);
    }
  }

  lemma LastOfAll(vs: seq<Voucher>)
    requires vs != []
    ensures multiset(vs) == multiset(vs[..|vs| - 1]) + multiset{vs[|vs| - 1]}
  {
    assert vs == vs[..|vs| - 1] + [vs[|vs| - 1]];
  }

  lemma {:induction false} SortIsPermutation(vs: seq<Voucher>)
    ensures multiset(SortByDate(vs)) == multiset(vs)
  {
    if vs != [] {
      var pre, last := vs[..|vs| - 1], vs[|vs| - 1];
      SortIsPermutation(pre);
      InsertKeepsEntries(SortByDate(pre), last);
      LastOfAll(vs);
    }
  }

  lemma {:induction false} SortKeepsDays(vs: seq<Voucher>, date: int)
    ensures OnDay(SortByDate(vs), date) == OnDay(vs, date)
  {
    if vs != [] {
      SortKeepsDays(vs[..|vs| - 1], date);
      InsertKeepsDays(SortByDate(vs[..|vs| - 1]), vs[|vs| - 1], date);
    }
  }

  /** Posting order: by date, and within a day nothing is added, lost or moved. */
  lemma {:induction false} SortIsStable(vs: seq<Voucher>, date: int)
    ensures ByDate(SortByDate(vs))
    ensures OnDay(SortByDate(vs), date) == OnDay(vs, date)
    ensures multiset(SortByDate(vs)) == multiset(vs)
  {
    SortIsOrdered(vs);
    SortKeepsDays(vs, date);
    SortIsPermutation(vs);
  }

  lemma {:induction false} SortKeepsEntries(vs: seq<Voucher>, p: Voucher -> bool)
    requires forall k :: 0 <= k < |vs| ==> p(vs[k])
    ensures forall k :: 0 <= k < |SortByDate(vs)| ==> p(SortByDate(vs)[k])
  {
    SortIsPermutation(vs);
    forall k | 0 <= k < |SortByDate(vs)| ensures p(SortByDate(vs)[k]) {
      assert SortByDate(vs)[k] in multiset(SortByDate(vs));
      assert SortByDate(vs)[k] in multiset(vs);
    }
  }

  /** The ledgers and running balances after some postings. */
  predicate LedgersAfter(chart: seq<Account>, done: seq<Posting>, rows: seq<seq<Row>>, bal: seq<int>) {
    && |rows| == |bal| == |chart|
    && (forall i :: 0 <= i < |chart| ==> bal[i] == chart[i].opening + MovedAll(done, i))
    && (forall i :: 0 <= i < |chart| ==> rows[i] == RowsOf(chart[i].opening, done, i))
  }

  /** One more posting adds one row to one ledger. */
  lemma PostOne(chart: seq<Account>, done: seq<Posting>, p: Posting, rows: seq<seq<Row>>, bal: seq<int>)
    requires LedgersAfter(chart, done, rows, bal) && p.acct < |chart|
    ensures var b := bal[p.acct] + p.amt;
      LedgersAfter(chart, done + [p],
                   rows[p.acct := rows[p.acct] + [Row(p.date, p.entry, Max0(p.amt), Max0(-p.amt), b)]],
                     bal[p.acct := b])
  {
    assert (done + [p])[..|done|] == done;
  }

  lemma PostNext(chart: seq<Account>, done: seq<Posting>, k: nat, v: Voucher, j: nat, rows: seq<seq<Row>>,
      bal: seq<int>)
    requires j < |v.lines| && v.lines[j].acct < |chart| && LedgersAfter(chart, done + LinePostings(k, v, j), rows, bal)
    ensures var a, amt := v.lines[j].acct, v.lines[j].amt;
      var b := bal[a] + amt;
      LedgersAfter(chart, done + LinePostings(k, v, j + 1),
                   rows[a := rows[a] + [Row(v.date, k, Max0(amt), Max0(-amt), b)]], bal[a := b])
  {
    var p := Posting(v.date, k, v.lines[j].acct, v.lines[j].amt);
    PostOne(chart, done + LinePostings(k, v, j), p, rows, bal);
    assert done + LinePostings(k, v, j + 1) == done + LinePostings(k, v, j) + [p];
  }

  /** The lines of one voucher, each added to its ledger and to its running balance. */
  method PostLines(chart: seq<Account>, v: Voucher, k: nat, ghost done: seq<Posting>, rows0: seq<seq<Row>>,
      bal0: seq<int>)
    returns (rows: seq<seq<Row>>, bal: seq<int>)
    requires InChart(v.lines, |chart|) && LedgersAfter(chart, done, rows0, bal0)
    ensures LedgersAfter(chart, done + LinePostings(k, v, |v.lines|), rows, bal)
  {
    rows, bal := rows0, bal0;
    assert done + [] == done;
    for j := 0 to |v.lines|
      invariant LedgersAfter(chart, done + LinePostings(k, v, j), rows, bal)
    {
      var a, amt := v.lines[j].acct, v.lines[j].amt;
      PostNext(chart, done, k, v, j, rows, bal);
      bal := bal[a := bal[a] + amt];
      rows := rows[a := rows[a] + [Row(v.date, k, Max0(amt), Max0(-amt), bal[a])]];
    }
  }

  // ------------------------------------------------------------------ validation of balances

  predicate RowsNeverNegative(rows: seq<Row>) {
    forall k :: 0 <= k < |rows| ==> rows[k].bal >= 0
  }

  /** Money held, and the other things a book cannot hold less than none of. */
  predicate IsHeldMoney(k: Kind) { k.Cash? || k.Gollak? || k.Bank? || k.Wallet? }

  predicate IsHeldElse(k: Kind) {
    k.Advance? || k.Fixed? || k.Invest? || k.Gollak? || k.DepPaid? || k.LoanTo? || k.Retention?
  }

  predicate ValidAccount(b: BookData, i: nat)
    requires i < N(b)
  {
    RowsAreValid(b.chart[i], Rows(b, i))
  }

  /** What the balance checks ask of an account and its rows. */
  predicate RowsAreValid(a: Account, rows: seq<Row>) {
    && (IsHeldMoney(a.kind) ==> a.opening >= 0 && RowsNeverNegative(rows))
    && (a.kind.Card? ==> forall k :: 0 <= k < |rows| ==> rows[k].bal <= 0)
    && (IsHeldElse(a.kind) ==> RowsNeverNegative(rows))
    && (a.kind.PCapital? ==> rows == [])
  }

  predicate ValidBalances(b: BookData) {
    && SumTo(DrSide(Closing(b)), N(b)) == SumTo(CrSide(Closing(b)), N(b))
    && OpeningsBalance(b)
    && (forall i :: 0 <= i < N(b) ==> ValidAccount(b, i))
    && (exists i :: 0 <= i < N(b) && b.chart[i].kind.Cash?)
  }

  /** The checks of `finalize`, one after another. */
  datatype Check = EveryVoucher | EveryDate | DateOrder | EveryBalance

  predicate PassesCheck(b: BookData, c: Check) {
    match c
    case EveryVoucher => ValidVouchers(b.chart, b.vouchers)
    case EveryDate => InYear(b.vouchers)
    case DateOrder => ByDate(b.vouchers)
    case EveryBalance => ValidBalances(b)
  }

  /** A book that finalises. */
  predicate ValidBook(b: BookData) {
    forall c: Check :: PassesCheck(b, c)
  }

  lemma ValidBookIs(b: BookData)
    ensures ValidBook(b)
       <==> ValidVouchers(b.chart, b.vouchers) && InYear(b.vouchers) && ByDate(b.vouchers) && ValidBalances(b)
  {
    assert ValidBook(b) ==> PassesCheck(b, EveryVoucher) && PassesCheck(b, EveryDate) && PassesCheck(b, DateOrder);
    assert ValidBook(b) ==> PassesCheck(b, EveryBalance);
  }

  /** The balances `closing` in a book are the figures `f`. */
  ghost predicate Holds(chart: seq<Account>, closing: seq<int>, f: int -> int) {
    |closing| == |chart| && forall i :: 0 <= i < |chart| ==> closing[i] == f(i)
  }

  /** One column of the trial balance. */
  method Column(closing: seq<int>, dr: bool, ghost side: int -> int) returns (total: int)
    requires forall i :: 0 <= i < |closing| ==> side(i) == Max0(if dr then closing[i] else -closing[i])
    ensures total == SumTo(side, |closing|)
  {
    total := 0;
    for i := 0 to |closing|
      invariant total == SumTo(side, i)
    {
      if dr && closing[i] > 0 {
        total := total + closing[i];
      } else if !dr && closing[i] < 0 {
        total := total - closing[i];
      }
    }
  }

  method Openings(chart: seq<Account>, ghost f: int -> int) returns (total: int)
    requires forall i :: 0 <= i < |chart| ==> f(i) == chart[i].opening
    ensures total == SumTo(f, |chart|)
  {
    total := 0;
    for i := 0 to |chart|
      invariant total == SumTo(f, i)
    {
      total := total + chart[i].opening;
    }
  }

  /** Every account's ledger against what may stand on it. */
  method CheckRows(chart: seq<Account>, rows: seq<seq<Row>>) returns (ok: bool)
    requires |rows| == |chart|
    ensures ok <==> forall i :: 0 <= i < |chart| ==> RowsAreValid(chart[i], rows[i])
  {
    ok := true;
    for i := 0 to |chart|
      invariant ok <==> forall j :: 0 <= j < i ==> RowsAreValid(chart[j], rows[j])
    {
      ok := ok && RowsAreValid(chart[i], rows[i]);
    }
  }

  /** The checks on the ledgers and closing balances of a book, as posted. */
  method CheckBalances(chart: seq<Account>, rows: seq<seq<Row>>, closing: seq<int>, ghost f: int -> int,
      ghost o: int -> int)
    returns (ok: bool)
    requires |rows| == |chart| && Holds(chart, closing, f)
    requires forall i :: 0 <= i < |chart| ==> o(i) == chart[i].opening
    ensures ok <==> BalancesHold(chart, rows, f, o)
  {
    var dr := Column(closing, true, DrSide(f));
    var cr := Column(closing, false, CrSide(f));
    var openings := Openings(chart, o);
    var rowsHold := CheckRows(chart, rows);
    ok := dr == cr && openings == 0 && rowsHold && exists i :: 0 <= i < |chart| && chart[i].kind.Cash?;
  }

  /** What they ask of any ledgers and balances. */
  ghost predicate BalancesHold(chart: seq<Account>, rows: seq<seq<Row>>, f: int -> int, o: int -> int)
    requires |rows| == |chart|
  {
    && SumTo(DrSide(f), |chart|) == SumTo(CrSide(f), |chart|) && SumTo(o, |chart|) == 0
    && (forall i :: 0 <= i < |chart| ==> RowsAreValid(chart[i], rows[i]))
    && (exists i :: 0 <= i < |chart| && chart[i].kind.Cash?)
  }

  lemma BalancesByLedger(b: BookData, rows: seq<seq<Row>>)
    requires |rows| == N(b) && forall i :: 0 <= i < N(b) ==> rows[i] == Rows(b, i)
    ensures ValidBalances(b) <==> BalancesHold(b.chart, rows, Closing(b), Opening(b))
  {
    forall i | 0 <= i < N(b) ensures ValidAccount(b, i) <==> RowsAreValid(b.chart[i], rows[i]) {
    }
  }

  // ------------------------------------------------------------------ making the close, step by step

  /** The lines that close one kind of head, and their total. */
  method CloseHeads(chart: seq<Account>, closing: seq<int>, p: Kind -> bool, ghost f: int -> int)
    returns (ls: seq<CloseLine>, total: int)
    requires Holds(chart, closing, f)
    ensures ls == HeadLines(chart, f, p, |chart|)
    ensures total == KindTotal(chart, f, p)
  {
    ls, total := [], 0;
    for n := 0 to |chart|
      invariant ls == HeadLines(chart, f, p, n)
      invariant total == SumTo(KindTerm(chart, f, p), n)
    {
      if p(chart[n].kind) && closing[n] != 0 {
        ls := ls + [CloseLine(InBook(n), -closing[n])];
        total := total + closing[n];
      }
    }
  }

  /** The two entries that close income and expense heads, and the result they leave. */
  method CloseToResult(chart: seq<Account>, closing: seq<int>, ghost f: int -> int)
    returns (out: seq<seq<CloseLine>>, result: int)
    requires Holds(chart, closing, f)
    ensures out == HeadEntries(chart, f) && result == Result(chart, f)
  {
    var inc, income := CloseHeads(chart, closing, IsIncome, f);
    var exp, te := CloseHeads(chart, closing, IsExpense, f);
    var ti := -income;
    result := ti - te;
    out := EntryOf(inc + [CloseLine(ResultAc, -ti)]) + EntryOf([CloseLine(ResultAc, te)] + exp);
  }

  method CloseToOwner(chart: seq<Account>, closing: seq<int>, own: nat, result: int, ghost f: int -> int)
    returns (out: seq<seq<CloseLine>>)
    requires Holds(chart, closing, f)
    ensures out == OwnerEntries(chart, f, own, result)
  {
    out := EntryOf([CloseLine(ResultAc, result), CloseLine(InBook(own), -result)]);
    var dls, dw := CloseHeads(chart, closing, IsDrawings, f);
    out := out + EntryOf([CloseLine(InBook(own), dw)] + dls);
    var sls, so := CloseHeads(chart, closing, IsShareOut, f);
    out := out + EntryOf([CloseLine(InBook(own), so)] + sls);
  }

  /** Balances and the two passing accounts after the close entries `es` and part of the next one. */
  ghost predicate ClosedSoFar(chart: seq<Account>, f: int -> int, es: seq<seq<CloseLine>>, ls: seq<CloseLine>,
                              pcb: seq<int>, resultBal: int, apprBal: int) {
    && |pcb| == |chart|
    && (forall i :: 0 <= i < |chart| ==> pcb[i] == f(i) + Closed(es, InBook(i)) + HeadDelta(ls, InBook(i)))
    && resultBal == Closed(es, ResultAc) + HeadDelta(ls, ResultAc)
    && apprBal == Closed(es, AppropriationAc) + HeadDelta(ls, AppropriationAc)
  }

  /** One more line of the close. */
  lemma CloseOneLine(chart: seq<Account>, f: int -> int, es: seq<seq<CloseLine>>, ls: seq<CloseLine>, l: CloseLine,
                     pcb: seq<int>, resultBal: int, apprBal: int)
    requires ClosedSoFar(chart, f, es, ls, pcb, resultBal, apprBal)
    ensures ClosedSoFar(chart, f, es, ls + [l],
                        if l.head.InBook? && 0 <= l.head.acct < |pcb|
                          then pcb[l.head.acct := pcb[l.head.acct] + l.amt] else pcb,
                        resultBal + (if l.head.ResultAc? then l.amt else 0),
                        apprBal + (if l.head.AppropriationAc? then l.amt else 0))
  {
    assert (ls + [l])[..|ls|] == ls;
  }

  lemma CloseOneEntry(chart: seq<Account>, f: int -> int, es: seq<seq<CloseLine>>, ls: seq<CloseLine>,
                      pcb: seq<int>, resultBal: int, apprBal: int)
    requires ClosedSoFar(chart, f, es, ls, pcb, resultBal, apprBal)
    ensures ClosedSoFar(chart, f, es + [ls], [], pcb, resultBal, apprBal)
  {
    assert (es + [ls])[..|es|] == es;
  }

  /** The lines of one close entry, each added to its account or to its passing account. */
  method ApplyCloseLines(chart: seq<Account>, ls: seq<CloseLine>, ghost f: int -> int, ghost es: seq<seq<CloseLine>>,
                         pcb0: seq<int>, resultBal0: int, apprBal0: int)
    returns (pcb: seq<int>, resultBal: int, apprBal: int)
    requires ClosedSoFar(chart, f, es, [], pcb0, resultBal0, apprBal0)
    ensures ClosedSoFar(chart, f, es, ls, pcb, resultBal, apprBal)
  {
    pcb, resultBal, apprBal := pcb0, resultBal0, apprBal0;
    for j := 0 to |ls|
      invariant ClosedSoFar(chart, f, es, ls[..j], pcb, resultBal, apprBal)
    {
      var l := ls[j];
      assert ls[..j + 1] == ls[..j] + [l];
      CloseOneLine(chart, f, es, ls[..j], l, pcb, resultBal, apprBal);
      pcb := if l.head.InBook? && 0 <= l.head.acct < |pcb| then pcb[l.head.acct := pcb[l.head.acct] + l.amt] else pcb;
      resultBal := resultBal + (if l.head.ResultAc? then l.amt else 0);
      apprBal := apprBal + (if l.head.AppropriationAc? then l.amt else 0);
    }
    assert ls[..|ls|] == ls;
  }

  /** Every close entry in turn. */
  method ApplyClose(chart: seq<Account>, closing: seq<int>, es: seq<seq<CloseLine>>, ghost f: int -> int)
    returns (pcb: seq<int>, resultBal: int, apprBal: int)
    requires Holds(chart, closing, f)
    ensures |pcb| == |chart| && forall i :: 0 <= i < |chart| ==> pcb[i] == PostClose(f, es)(i)
    ensures resultBal == Closed(es, ResultAc) && apprBal == Closed(es, AppropriationAc)
  {
    pcb, resultBal, apprBal := closing, 0, 0;
    for k := 0 to |es|
      invariant ClosedSoFar(chart, f, es[..k], [], pcb, resultBal, apprBal)
    {
      pcb, resultBal, apprBal := ApplyCloseLines(chart, es[k], f, es[..k], pcb, resultBal, apprBal);
      CloseOneEntry(chart, f, es[..k], es[k], pcb, resultBal, apprBal);
      assert es[..k + 1] == es[..k] + [es[k]];
    }
    assert es[..|es|] == es;
  }

  // ------------------------------------------------------------------ the object

  class Book {
    const chart: seq<Account>
    const partners: seq<Partner>
    var vouchers: seq<Voucher>
    var rows: seq<seq<Row>>
    var closing: seq<int>
    var close: Option<seq<seq<CloseLine>>>

    function Data(): BookData
      reads this
    {
      BookData(chart, vouchers)
    }

    /** Every ledger and every closing balance is what the vouchers make it. */
    ghost predicate Posted()
      reads this
    {
      && |rows| == |closing| == |chart|
      && forall i :: 0 <= i < |chart| ==> rows[i] == Rows(Data(), i) && closing[i] == Closing(Data())(i)
    }

    /** The close entries are kept once they are made. */
    ghost predicate CloseKept()
      reads this
    {
      close.Some? ==> close == CloseEntries(chart, partners, Closing(Data()))
    }

    constructor (chart: seq<Account>, partners: seq<Partner>)
      ensures this.chart == chart && this.partners == partners && vouchers == [] && close.None?
    {
      this.chart := chart;
      this.partners := partners;
      vouchers := [];
      rows := [];
      closing := [];
      close := None;
    }

    /** An entry dated outside the year is refused. */
    method V(date: int, vtype: VType, lines: seq<Line>) returns (ok: bool)
      modifies this`vouchers
      ensures ok <==> FY_START <= date <= FY_END
      ensures vouchers == if ok then old(vouchers) + [Voucher(date, vtype, lines)] else old(vouchers)
      ensures old(InYear(vouchers)) ==> InYear(vouchers)
    {
      ok := FY_START <= date <= FY_END;
      if ok {
        vouchers := vouchers + [Voucher(date, vtype, lines)];
      }
    }

    /** Posting one line after another leaves exactly the ledgers the vouchers define. */
    method Post()
      requires forall k :: 0 <= k < |vouchers| ==> InChart(vouchers[k].lines, |chart|)
      modifies this`rows, this`closing
      ensures Posted()
    {
      var n := |chart|;
      var bal := seq(n, i requires 0 <= i < n => chart[i].opening);
      rows := seq(n, i => []);
      for k := 0 to |vouchers|
        invariant LedgersAfter(chart, Postings(vouchers[..k]), rows, bal)
      {
        assert vouchers[..k + 1][..k] == vouchers[..k];
        var next;
        next, bal := PostLines(chart, vouchers[k], k, Postings(vouchers[..k]), rows, bal);
        rows := next;
      }
      assert vouchers[..|vouchers|] == vouchers;
      closing := bal;
    }

    /** `finalize`: sort, check every voucher, post, check the balances. The book is refused exactly when a check
        fails. */
    method Finalize() returns (ok: bool)
      requires InYear(vouchers)
      modifies this
      ensures vouchers == SortByDate(old(vouchers)) && ByDate(vouchers)
      ensures ok <==> ValidBook(Data())
      ensures ok ==> Posted()
    {
      ghost var written := vouchers;
      vouchers := SortByDate(vouchers);
      SortIsStable(written, 0);
      SortKeepsEntries(written, (v: Voucher) => FY_START <= v.date <= FY_END);
      ValidBookIs(Data());
      if !ValidVouchers(chart, vouchers) {
        return false;
      }
      Post();
      ok := ValidateBalances();
    }

    /** `validate_balances`: the checks, on the ledgers and closing balances as posted. */
    method ValidateBalances() returns (ok: bool)
      requires Posted()
      ensures ok <==> ValidBalances(Data())
    {
      BalancesByLedger(Data(), rows);
      ok := CheckBalances(chart, rows, closing, Closing(Data()), Opening(Data()));
    }

    /** `close_entries`: made once, then kept. */
    method MakeCloseEntries() returns (out: Option<seq<seq<CloseLine>>>)
      requires Posted() && CloseKept()
      modifies this`close
      ensures out == CloseEntries(chart, partners, Closing(Data()))
      ensures CloseKept() && (out.Some? ==> close == out)
      ensures out.Some? ==> forall k :: 0 <= k < |partners| && HasOwnAccount(chart, partners, k) ==>
           Credited(out.value, partners[k].current) == PartnerPay(chart, partners, Closing(Data()))[k]
    {
      ghost var closing0 := Closing(Data());
      if CanClose(chart, partners, closing0) {
        CreditedAreTheirPay(chart, partners, closing0);
      }
      if close.Some? {
        return close;
      }
      var f := Closing(Data());
      var heads, result := CloseToResult(chart, closing, f);
      if partners != [] {
        var shares := Appropriation(f, partners, result);
        if result <= 0 || shares.None? {
          return None;
        }
        out := Some(heads + PartnerEntries(partners, result, Interests(f, partners), shares.value));
      } else {
        var own := OwnerAccount(chart);
        if own.None? {
          return None;
        }
        var rest := CloseToOwner(chart, closing, own.value, result, f);
        out := Some(heads + rest);
      }
      close := out;
    }

    /** `post_close_balances`: every account's balance after the close, the two passing accounts beside them;
        `ok` is the source's last check. */
    method PostCloseBalances(es: seq<seq<CloseLine>>) returns (pcb: seq<int>, resultBal: int, apprBal: int, ok: bool)
      requires Posted() && CloseEntries(chart, partners, Closing(Data())) == Some(es)
      ensures |pcb| == |chart| && forall i :: 0 <= i < |chart| ==> pcb[i] == PostClose(Closing(Data()), es)(i)
      ensures resultBal == apprBal == 0
      ensures ok <==> forall i :: 0 <= i < |chart| && IsClosedKind(chart[i].kind) ==> pcb[i] == 0
    {
      ghost var f := Closing(Data());
      pcb, resultBal, apprBal := ApplyClose(chart, closing, es, f);
      CloseDoes(chart, partners, f, ResultAc);
      CloseDoes(chart, partners, f, AppropriationAc);
      ok := resultBal == 0 && apprBal == 0 && forall i :: 0 <= i < |chart| && IsClosedKind(chart[i].kind) ==>
        pcb[i] == 0;
    }
  }
}
