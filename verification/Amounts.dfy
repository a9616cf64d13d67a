/** The printed amount: Indian grouping, the producer's own reader, and the independent checker's reader. */
module Amounts {
  import opened Options
  import opened Totals

  const MINUS := '\U{2212}'
  const DASH := "\U{2014}"
  const RUPEE := '\U{20B9}'

  // ------------------------------------------------------------------ digits

  predicate IsDigit(c: char) {
    '0' <= c <= '9'
  }

  predicate AllDigits(s: string) {
    forall k :: 0 <= k < |s| ==> IsDigit(s[k])
  }

  function DigitChar(d: nat): char
    requires d < 10
  {
    ('0' as int + d) as char
  }

  /** `str` of a non-negative integer. */
  function Digits(n: nat): string {
    if n < 10 then [DigitChar(n)] else Digits(n / 10) + [DigitChar(n % 10)]
  }

  /** `int` of a string of digits. */
  function Value(s: string): nat
    requires AllDigits(s)
  {
    if s == [] then 0 else Value(s[..|s| - 1]) * 10 + (s[|s| - 1] as int - '0' as int)
  }

  function Int(s: string): Option<nat> {
    if s != [] && AllDigits(s) then Some(Value(s)) else None
  }

  lemma {:induction false} DigitsHaveTheirValue(n: nat)
    ensures Digits(n) != [] && AllDigits(Digits(n)) && Value(Digits(n)) == n
  {
    if n >= 10 {
      DigitsHaveTheirValue(n / 10);
      var s := Digits(n);
      assert s[..|s| - 1] == Digits(n / 10);
    } else {
      assert [DigitChar(n)][..0] == [];
    }
  }

  /** No number but nil itself is written with a nought in front. */
  lemma {:induction false} NoNoughtInFront(n: nat)
    ensures Digits(n)[0] == '0' <==> n == 0
    ensures n < 10 ==> |Digits(n)| == 1
  {
    if n >= 10 {
      NoNoughtInFront(n / 10);
    }
  }

  // ------------------------------------------------------------------ printing

  /** The part before the last three digits, in groups of two. */
  function Pairs(head: string): string {
    if |head| <= 2 then head else Pairs(head[..|head| - 2]) + "," + head[|head| - 2..]
  }

  function Grouped(s: string): string {
    if |s| <= 3 then s else Pairs(s[..|s| - 3]) + "," + s[|s| - 3..]
  }

  /** Two digits of paise, and nothing for whole rupees. */
  function PaisePart(ps: nat): string
    requires ps < 100
  {
    if ps == 0 then "" else "." + [DigitChar(ps / 10), DigitChar(ps % 10)]
  }

  function Fmt(p: int, dash: bool, showZero: bool): string {
    if p == 0 then (if showZero || !dash then "0" else DASH)
    else
      var q := Abs(p);
      (if p < 0 then [MINUS] else "") + Grouped(Digits(q / 100)) + PaisePart(q % 100)
  }

  /** The grouping loop: groups of two are put in front, one after another. */
  method GroupDigits(s: string) returns (out: string)
    ensures out == Grouped(s)
  {
    if |s| <= 3 {
      return s;
    }
    var head, tail := s[..|s| - 3], s[|s| - 3..];
    var parts := "";
    while |head| > 2
      invariant |head| > 0
      invariant Pairs(head) + parts == Pairs(s[..|s| - 3])
    {
      assert Pairs(head) == Pairs(head[..|head| - 2]) + "," + head[|head| - 2..];
      parts := "," + head[|head| - 2..] + parts;
      head := head[..|head| - 2];
    }
    out := head + parts + "," + tail;
  }

  /** Groups of two, the first of one or two digits. */
  predicate InPairs(s: string) {
    if |s| <= 2 then |s| > 0 && AllDigits(s)
    else |s| > 3 && AllDigits(s[|s| - 2..]) && s[|s| - 3] == ',' && InPairs(s[..|s| - 3])
  }

  /** The last group has three digits and every other group two, the first one or two. */
  predicate IndianGrouped(s: string) {
    if |s| <= 3 then |s| > 0 && AllDigits(s)
    else |s| > 4 && AllDigits(s[|s| - 3..]) && s[|s| - 4] == ',' && InPairs(s[..|s| - 4])
  }

  lemma {:induction false} PairsAreInPairs(head: string)
    requires head != [] && AllDigits(head)
    ensures InPairs(Pairs(head))
  {
    if |head| > 2 {
      var pre := head[..|head| - 2];
      PairsAreInPairs(pre);
      var out := Pairs(head);
      assert out == Pairs(pre) + "," + head[|head| - 2..];
      assert out[..|out| - 3] == Pairs(pre) && out[|out| - 2..] == head[|head| - 2..];
    }
  }

  /** However long the number, the printed rupees are grouped the Indian way. */
  lemma GroupedIsIndian(s: string)
    requires s != [] && AllDigits(s)
    ensures IndianGrouped(Grouped(s))
  {
    if |s| > 3 {
      PairsAreInPairs(s[..|s| - 3]);
      var out := Grouped(s);
      assert out[..|out| - 4] == Pairs(s[..|s| - 3]) && out[|out| - 3..] == s[|s| - 3..];
    }
  }

  lemma {:induction false} PairsStartAlike(head: string)
    requires head != []
    ensures Pairs(head) != [] && Pairs(head)[0] == head[0]
  {
    if |head| > 2 {
      PairsStartAlike(head[..|head| - 2]);
    }
  }

  lemma GroupedStartsAlike(s: string)
    requires s != []
    ensures Grouped(s) != [] && Grouped(s)[0] == s[0]
  {
    if |s| > 3 {
      PairsStartAlike(s[..|s| - 3]);
    }
  }

  /** Rupees grouped the Indian way, with no nought in front but for less than a rupee, and two digits of paise only
      where there are any. */
  predicate IsPrinted(cell: string, p: nat) {
    if p % 100 == 0 then IndianGrouped(cell) && cell[0] != '0'
    else
      |cell| > 3 && cell[|cell| - 3] == '.' && AllDigits(cell[|cell| - 2..]) && IndianGrouped(cell[..|cell| - 3])
      && (cell[0] == '0' <==> p < 100)
  }

  lemma CellIsPrinted(whole: string, part: string, p: nat)
    requires p > 0 && IndianGrouped(whole) && (whole[0] == '0' <==> p < 100)
    requires if p % 100 == 0 then part == "" else |part| == 3 && part[0] == '.' && AllDigits(part[1..])
    ensures IsPrinted(whole + part, p)
  {
    var cell := whole + part;
    if part == "" {
      assert cell == whole;
    } else {
      assert cell[..|cell| - 3] == whole && cell[|cell| - 2..] == part[1..];
    }
  }

  lemma PaiseAreTwoDigits(ps: nat)
    requires 0 < ps < 100
    ensures |PaisePart(ps)| == 3 && PaisePart(ps)[0] == '.' && AllDigits(PaisePart(ps)[1..])
  {
    assert PaisePart(ps)[1..] == [DigitChar(ps / 10), DigitChar(ps % 10)];
  }

  lemma PositiveAsPrinted(p: nat)
    requires p > 0
    ensures IsPrinted(Body(p), p)
  {
    var whole := Digits(p / 100);
    DigitsHaveTheirValue(p / 100);
    NoNoughtInFront(p / 100);
    GroupedIsIndian(whole);
    GroupedStartsAlike(whole);
    if p % 100 != 0 {
      PaiseAreTwoDigits(p % 100);
    }
    CellIsPrinted(Grouped(whole), PaisePart(p % 100), p);
  }

  // ------------------------------------------------------------------ string tools

  function Remove(s: string, c: char): string {
    if s == [] then [] else Remove(s[..|s| - 1], c) + (if s[|s| - 1] == c then [] else [s[|s| - 1]])
  }

  /** Taking every double star out, from the left. */
  function RemoveStars(s: string): string {
    if |s| < 2 then s
    else if s[0] == '*' && s[1] == '*' then RemoveStars(s[2..])
    else [s[0]] + RemoveStars(s[1..])
  }

  function StripLeft(s: string, p: char -> bool): string {
    if s != [] && p(s[0]) then StripLeft(s[1..], p) else s
  }

  function StripRight(s: string): string {
    if s != [] && s[|s| - 1] == ' ' then StripRight(s[..|s| - 1]) else s
  }

  predicate IsSpace(c: char) { c == ' ' }

  predicate IsMinus(c: char) { c == MINUS || c == '-' }

  predicate IsTrueMinus(c: char) { c == MINUS }

  function Strip(s: string): string {
    StripRight(StripLeft(s, IsSpace))
  }

  /** The part before the first dot. */
  function BeforeDot(s: string): string {
    if s == [] || s[0] == '.' then [] else [s[0]] + BeforeDot(s[1..])
  }

  /** The first dot and what follows it. */
  function FromDot(s: string): string {
    if s == [] || s[0] == '.' then s else FromDot(s[1..])
  }

  lemma {:induction false} RemoveConcat(a: string, b: string, c: char)
    ensures Remove(a + b, c) == Remove(a, c) + Remove(b, c)
  {
    if b == [] {
      assert a + b == a;
    } else {
      assert (a + b)[..|a + b| - 1] == a + b[..|b| - 1];
      RemoveConcat(a, b[..|b| - 1], c);
    }
  }

  lemma {:induction false} RemoveAbsent(s: string, c: char)
    requires c !in s
    ensures Remove(s, c) == s
  {
    if s != [] {
      RemoveAbsent(s[..|s| - 1], c);
    }
  }

  lemma {:induction false} StarsAbsent(s: string)
    requires '*' !in s
    ensures RemoveStars(s) == s && RemoveStars(s + "**") == s
  {
    if s == [] {
      assert s + "**" == "**" && "**"[2..] == "";
    } else {
      StarsAbsent(s[1..]);
      assert (s + "**")[1..] == s[1..] + "**";
    }
  }

  lemma {:induction false} RemoveLast(a: string, s: string, c: char)
    requires s == a + [c]
    ensures Remove(s, c) == Remove(a, c)
  {
    assert s[..|s| - 1] == a;
  }

  /** A comma between a number and one more group. */
  lemma {:induction false} CommaComesOut(a: string, group: string)
    requires AllDigits(group)
    ensures Remove(a + "," + group, ',') == Remove(a, ',') + group
  {
    RemoveAbsent(group, ',');
    RemoveConcat(a + ",", group, ',');
    RemoveLast(a, a + ",", ',');
  }

  lemma {:induction false} PairsWithoutCommas(head: string)
    requires AllDigits(head)
    ensures Remove(Pairs(head), ',') == head
  {
    if |head| > 2 {
      PairsWithoutCommas(head[..|head| - 2]);
      CommaComesOut(Pairs(head[..|head| - 2]), head[|head| - 2..]);
    } else {
      RemoveAbsent(head, ',');
    }
  }

  lemma GroupedWithoutCommas(s: string)
    requires AllDigits(s)
    ensures Remove(Grouped(s), ',') == s
  {
    if |s| > 3 {
      var head, tail := s[..|s| - 3], s[|s| - 3..];
      PairsWithoutCommas(head);
      CommaComesOut(Pairs(head), tail);
      assert Grouped(s) == Pairs(head) + "," + tail && head + tail == s;
    } else {
      RemoveAbsent(s, ',');
    }
  }

  /** Only digits and commas. */
  predicate Plain(s: string) {
    forall k :: 0 <= k < |s| ==> IsDigit(s[k]) || s[k] == ','
  }

  lemma {:induction false} PairsArePlain(head: string)
    requires AllDigits(head)
    ensures Plain(Pairs(head)) && (head != [] ==> Pairs(head) != [] && IsDigit(Pairs(head)[0]))
  {
    if |head| > 2 {
      PairsArePlain(head[..|head| - 2]);
    }
  }

  lemma GroupedIsPlain(s: string)
    requires AllDigits(s) && s != []
    ensures Plain(Grouped(s)) && Grouped(s) != [] && IsDigit(Grouped(s)[0])
  {
    if |s| > 3 {
      PairsArePlain(s[..|s| - 3]);
    }
  }

  lemma {:induction false} DotAfter(a: string, b: string)
    requires '.' !in a && (b == [] || b[0] == '.')
    ensures BeforeDot(a + b) == a && FromDot(a + b) == b
  {
    if a == [] {
      assert a + b == b;
    } else {
      assert (a + b)[1..] == a[1..] + b;
      DotAfter(a[1..], b);
    }
  }

  lemma PaisePartValue(ps: nat)
    requires 0 < ps < 100
    ensures var f := PaisePart(ps)[1..]; AllDigits(f) && |f| == 2 && Value(f) == ps
  {
    var f := PaisePart(ps)[1..];
    assert f == [DigitChar(ps / 10), DigitChar(ps % 10)];
    assert f[..1] == [DigitChar(ps / 10)] && f[..1][..0] == [];
    assert Value(f[..1]) == ps / 10;
  }

  /** Nothing for no paise, or a dot and two digits. */
  predicate IsPaise(f: string, ps: nat) {
    if f == [] then ps == 0
    else |f| == 3 && f[0] == '.' && AllDigits(f[1..]) && Value(f[1..]) == ps
  }

  lemma PaisePartIsPaise(ps: nat)
    requires ps < 100
    ensures IsPaise(PaisePart(ps), ps)
  {
    if ps != 0 {
      PaisePartValue(ps);
    }
  }

  /** The printed amount without its sign. */
  function Body(q: nat): string {
    Grouped(Digits(q / 100)) + PaisePart(q % 100)
  }

  lemma BodyShape(q: nat)
    ensures Body(q) != [] && IsDigit(Body(q)[0]) && IsDigit(Body(q)[|Body(q)| - 1])
    ensures forall k :: 0 <= k < |Body(q)| ==> IsDigit(Body(q)[k]) || Body(q)[k] == ',' || Body(q)[k] == '.'
  {
    DigitsHaveTheirValue(q / 100);
    var s := Digits(q / 100);
    GroupedIsPlain(s);
    GroupedIsIndian(s);
    if q % 100 != 0 {
      PaisePartValue(q % 100);
    } else {
      var g := Grouped(s);
      assert Body(q) == g;
      if |g| > 3 {
        assert IsDigit(g[|g| - 3..][2]);
      }
    }
  }

  // ------------------------------------------------------------------ the producer's reader

  /** Rupees before the dot, paise after it. */
  function Parts(s: string): Option<int> {
    var r, f := Int(BeforeDot(s)), FromDot(s);
    if r.None? || (|f| > 1 && Int(f[1..]).None?) then None
    else Some(r.value * 100 + (if |f| > 1 then Int(f[1..]).value else 0))
  }

  function SignedParts(s: string): Option<int> {
    var v := Parts(StripLeft(s, IsTrueMinus));
    if v.None? then None else if s != [] && s[0] == MINUS then Some(-v.value) else v
  }

  function IntOr(cell: string): Option<int> {
    SignedParts(Remove(RemoveStars(cell), ','))
  }

  function Bold(s: string): string {
    "**" + s + "**"
  }

  lemma {:induction false} BoldIsPlain(s: string)
    requires '*' !in s
    ensures RemoveStars(Bold(s)) == s && RemoveStars(s) == s
  {
    StarsAbsent(s);
    assert Bold(s)[2..] == s + "**";
  }

  lemma {:induction false} PartsOfWhole(s: string)
    requires s != [] && AllDigits(s)
    ensures Parts(s) == Some(Value(s) * 100)
  {
    assert s + [] == s;
    DotAfter(s, []);
  }

  lemma {:induction false} PartsJoin(s: string, f: string)
    requires s != [] && AllDigits(s) && |f| > 1 && f[0] == '.' && AllDigits(f[1..])
    ensures Parts(s + f) == Some(Value(s) * 100 + Value(f[1..]))
  {
    DotAfter(s, f);
  }

  /** The amount as the readers see it once the commas are out. */
  function Bare(q: nat): string {
    Digits(q / 100) + PaisePart(q % 100)
  }

  lemma BareReads(q: nat)
    ensures Bare(q) != [] && IsDigit(Bare(q)[0])
    ensures Parts(Bare(q)) == Some(q)
  {
    DigitsHaveTheirValue(q / 100);
    if q % 100 != 0 {
      PaisePartValue(q % 100);
      PartsJoin(Digits(q / 100), PaisePart(q % 100));
    } else {
      PartsOfWhole(Digits(q / 100));
      assert Bare(q) == Digits(q / 100);
    }
  }

  lemma PaisePartHasNoComma(ps: nat)
    requires ps < 100
    ensures Remove(PaisePart(ps), ',') == PaisePart(ps)
  {
    if ps != 0 {
      PaisePartValue(ps);
      var f := PaisePart(ps);
      assert f[0] == '.' && IsDigit(f[1..][0]) && IsDigit(f[1..][1]);
    }
    RemoveAbsent(PaisePart(ps), ',');
  }

  lemma BodyWithoutCommas(q: nat)
    ensures Remove(Body(q), ',') == Bare(q)
  {
    DigitsHaveTheirValue(q / 100);
    GroupedWithoutCommas(Digits(q / 100));
    PaisePartHasNoComma(q % 100);
    RemoveConcat(Grouped(Digits(q / 100)), PaisePart(q % 100), ',');
  }

  function Sign(neg: bool): string {
    if neg then [MINUS] else ""
  }

  /** A sign in front of a number is taken off whole. */
  lemma {:induction false} SignComesOff(neg: bool, rest: string, p: char -> bool)
    requires rest != [] && !p(rest[0]) && p(MINUS)
    ensures StripLeft(Sign(neg) + rest, p) == rest
    ensures (Sign(neg) + rest)[0] == MINUS <==> neg || rest[0] == MINUS
  {
    if neg {
      assert (Sign(neg) + rest)[1..] == rest;
    } else {
      assert Sign(neg) + rest == rest;
    }
  }

  /** Nil prints as a dash where a dash is asked for and a nought is not. */
  predicate Dashed(p: int, dash: bool, showZero: bool) {
    p == 0 && dash && !showZero
  }

  lemma NilHasOneDigit()
    ensures Body(0) == "0"
  {
  }

  lemma FmtShape(p: int, dash: bool, showZero: bool)
    ensures Fmt(p, dash, showZero) == if Dashed(p, dash, showZero) then DASH else Sign(p < 0) + Body(Abs(p))
  {
    NilHasOneDigit();
  }

  /** How an amount is printed: nil as 0 or a long dash; else a true minus before a negative one, and the figure. */
  lemma AmountsAsPrinted(p: int, dash: bool, showZero: bool)
    ensures p == 0 ==> Fmt(p, dash, showZero) == if dash && !showZero then "\U{2014}" else "0"
    ensures p != 0 ==> Fmt(p, dash, showZero) == Sign(p < 0) + Body(Abs(p)) && IsPrinted(Body(Abs(p)), Abs(p))
    ensures Sign(p < 0) == if p < 0 then ['\U{2212}'] else []
  {
    FmtShape(p, dash, showZero);
    if p != 0 {
      PositiveAsPrinted(Abs(p));
    }
  }

  lemma SignedIsBare(p: int, cell: string)
    requires cell == Sign(p < 0) + Body(Abs(p))
    ensures cell != [] && cell[0] != ' ' && cell[|cell| - 1] != ' ' && cell[0] != '='
    ensures RUPEE !in cell && '*' !in cell
  {
    BodyShape(Abs(p));
  }

  /** What the producer reads, when the commas leave a sign and a number. */
  lemma {:induction false} IntOrReads(cell: string, neg: bool, bare: string)
    requires '*' !in cell && Remove(cell, ',') == Sign(neg) + bare && bare != [] && bare[0] != MINUS
    ensures IntOr(cell) == if Parts(bare).Some? && neg then Some(-Parts(bare).value) else Parts(bare)
  {
    StarsAbsent(cell);
    SignComesOff(neg, bare, IsTrueMinus);
  }

  lemma CommasOut(p: int)
    ensures Remove(Sign(p < 0) + Body(Abs(p)), ',') == Sign(p < 0) + Bare(Abs(p))
  {
    BodyWithoutCommas(Abs(p));
    RemoveAbsent(Sign(p < 0), ',');
    RemoveConcat(Sign(p < 0), Body(Abs(p)), ',');
  }

  lemma {:induction false} IntOrOfBare(p: int, cell: string, bare: string)
    requires '*' !in cell && Remove(cell, ',') == Sign(p < 0) + bare
    requires bare != [] && IsDigit(bare[0]) && Parts(bare) == Some(Abs(p))
    ensures IntOr(cell) == Some(p)
  {
    IntOrReads(cell, p < 0, bare);
  }

  lemma IntOrOfSigned(p: int, cell: string)
    requires '*' !in cell && cell == Sign(p < 0) + Body(Abs(p))
    ensures IntOr(cell) == Some(p)
  {
    CommasOut(p);
    BareReads(Abs(p));
    IntOrOfBare(p, cell, Bare(Abs(p)));
  }

  lemma NothingReadable(s: string)
    requires s != [] && !IsDigit(s[0]) && s[0] != '.'
    ensures Parts(s) == None
  {
    assert BeforeDot(s)[0] == s[0];
  }

  lemma IntOrOfDash()
    ensures IntOr(DASH) == None
  {
    RemoveAbsent(DASH, ',');
    assert Sign(false) + DASH == DASH;
    IntOrReads(DASH, false, DASH);
    NothingReadable(DASH);
  }

  lemma BoldReadsAlike(s: string)
    requires '*' !in s
    ensures IntOr(Bold(s)) == IntOr(s)
  {
    BoldIsPlain(s);
  }

  lemma FmtHasNoStar(p: int, dash: bool, showZero: bool)
    ensures '*' !in Fmt(p, dash, showZero)
  {
    FmtShape(p, dash, showZero);
    SignedIsBare(p, Sign(p < 0) + Body(Abs(p)));
  }

  /** For every amount: the producer reads back what it printed, plain or bold, except the dash it prints for nil. */
  lemma IntOrInvertsFmt(p: int, dash: bool, showZero: bool)
    ensures IntOr(Fmt(p, dash, showZero)) == Some(p) <==> !(p == 0 && dash && !showZero)
    ensures IntOr(Bold(Fmt(p, dash, showZero))) == IntOr(Fmt(p, dash, showZero))
  {
    FmtHasNoStar(p, dash, showZero);
    BoldReadsAlike(Fmt(p, dash, showZero));
    FmtShape(p, dash, showZero);
    if Dashed(p, dash, showZero) {
      IntOrOfDash();
    } else {
      IntOrOfSigned(p, Fmt(p, dash, showZero));
    }
  }

  // ------------------------------------------------------------------ the checker's reader

  /** The checker's pattern for rupees: one to three digits and groups of two or three, or digits alone. */
  predicate InGroups(s: string) {
    if |s| <= 3 then |s| > 0 && AllDigits(s)
    else
      || (AllDigits(s[|s| - 2..]) && s[|s| - 3] == ',' && InGroups(s[..|s| - 3]))
      || (|s| > 4 && AllDigits(s[|s| - 3..]) && s[|s| - 4] == ',' && InGroups(s[..|s| - 4]))
  }

  predicate IsRupees(s: string) {
    InGroups(s) || (s != [] && AllDigits(s))
  }

  /** Digits and commas; a first group of one to three digits, and after every comma a group of two or three. */
  predicate CommasInPlace(s: string) {
    && s != [] && Plain(s) && IsDigit(s[0])
    && (|s| <= 3 || s[1] == ',' || s[2] == ',' || s[3] == ',')
    && forall i :: 0 <= i < |s| && s[i] == ',' ==> GroupAfter(s, i)
  }

  predicate GroupAfter(s: string, i: nat) {
    && i + 2 < |s| && s[i + 1] != ',' && s[i + 2] != ','
    && (i + 3 == |s| || s[i + 3] == ',' || i + 4 == |s| || s[i + 4] == ',')
  }

  /** The last group of a longer number and what comes before it. */
  predicate EndsInGroup(s: string, c: nat) {
    && 0 < c < |s| && s[c] == ',' && (c + 3 == |s| || c + 4 == |s|)
    && AllDigits(s[c + 1..]) && InGroups(s[..c])
  }

  lemma LastGroup(s: string)
    requires |s| > 3
    ensures InGroups(s) <==> EndsInGroup(s, |s| - 3) || EndsInGroup(s, |s| - 4)
  {
  }

  /** The pattern read from the back is the pattern read from the front. */
  lemma {:induction false} GroupsAreInPlace(s: string)
    ensures InGroups(s) <==> CommasInPlace(s)
  {
    if |s| <= 3 {
      ShortGroup(s);
    } else {
      LastGroup(s);
      if InGroups(s) {
        var c := if EndsInGroup(s, |s| - 3) then |s| - 3 else |s| - 4;
        GroupsAreInPlace(s[..c]);
        GroupAtTheEnd(s, c);
      }
      if CommasInPlace(s) {
        var c := LastComma(s);
        GroupsBefore(s, c);
        GroupsAreInPlace(s[..c]);
      }
    }
  }

  lemma ShortGroup(s: string)
    requires |s| <= 3
    ensures s != [] && AllDigits(s) <==> CommasInPlace(s)
  {
    if CommasInPlace(s) {
      forall k | 0 <= k < |s| ensures IsDigit(s[k]) {
        assert s[k] == ',' ==> GroupAfter(s, k);
      }
    }
  }

  lemma {:induction false} LastComma(s: string) returns (c: nat)
    requires CommasInPlace(s) && |s| > 3
    ensures 0 < c < |s| && s[c] == ',' && forall k :: c < k < |s| ==> s[k] != ','
  {
    c := |s| - 1;
    while s[c] != ','
      invariant 0 < c < |s| && forall k :: c < k < |s| ==> s[k] != ','
      invariant c >= 3 || s[1] == ',' || s[2] == ','
      invariant c >= 2 || s[1] == ','
      decreases c
    {
      c := c - 1;
    }
  }

  lemma GroupAtTheEnd(s: string, c: nat)
    requires 0 < c < |s| && s[c] == ',' && CommasInPlace(s[..c]) && AllDigits(s[c + 1..])
    requires c + 3 == |s| || c + 4 == |s|
    ensures CommasInPlace(s)
  {
    forall k | 0 <= k < |s| ensures IsDigit(s[k]) || s[k] == ',' {
      if k < c {
        assert s[k] == s[..c][k];
      } else if k > c {
        assert s[k] == s[c + 1..][k - c - 1];
      }
    }
    forall i | 0 <= i < |s| && s[i] == ',' ensures GroupAfter(s, i) {
      if i < c {
        assert s[..c][i] == ',' && GroupAfter(s[..c], i);
      } else {
        assert i == c;
      }
    }
  }

  lemma GroupsBefore(s: string, c: nat)
    requires CommasInPlace(s) && 0 < c < |s| && s[c] == ',' && forall k :: c < k < |s| ==> s[k] != ','
    ensures CommasInPlace(s[..c]) && AllDigits(s[c + 1..]) && (c + 3 == |s| || c + 4 == |s|)
  {
    assert GroupAfter(s, c);
    var pre := s[..c];
    forall i | 0 <= i < c && pre[i] == ',' ensures GroupAfter(pre, i) {
      assert GroupAfter(s, i);
    }
  }

  /** What the checker takes as rupees: digits alone, or digits with their commas in place; nothing else. */
  lemma RupeesAreTaken(s: string)
    ensures IsRupees(s) <==> (s != [] && AllDigits(s)) || CommasInPlace(s)
  {
    GroupsAreInPlace(s);
  }

  /** Rupees, and two digits of paise after a dot if there is one. */
  function Matched(s: string): Option<int> {
    var r, f := BeforeDot(s), FromDot(s);
    var d := Remove(r, ',');
    if !IsRupees(r) || d == [] || !AllDigits(d) then None
    else if f == [] then Some(Value(d) * 100)
    else if |f| == 3 && AllDigits(f[1..]) then Some(Value(d) * 100 + Value(f[1..]))
    else None
  }

  /** A cell without markup tags, its double stars taken out. */
  function Clean(cell: string): string {
    Strip(RemoveStars(cell))
  }

  /** A number with its sign, or the mark of nothing. */
  function Number(s: string): Option<int> {
    if s == DASH || s == "" || s == "-" then Some(0)
    else
      var v := Matched(StripLeft(s, IsMinus));
      if v.None? then None else if IsMinus(s[0]) then Some(-v.value) else v
  }

  function PaiseOf(s: string): Option<int> {
    Number(Strip(Remove(if s != [] && s[0] == '=' then StripLeft(s[1..], IsSpace) else s, RUPEE)))
  }

  function Paise(cell: string): Option<int> {
    PaiseOf(Clean(cell))
  }

  lemma {:induction false} PairsMatch(s: string)
    requires InPairs(s)
    ensures InGroups(s)
  {
    if |s| > 3 {
      PairsMatch(s[..|s| - 3]);
    }
  }

  /** Every Indian-grouped number is one the checker's pattern takes. */
  lemma IndianMatches(s: string)
    requires IndianGrouped(s)
    ensures IsRupees(s)
  {
    if |s| > 3 {
      PairsMatch(s[..|s| - 4]);
    }
  }

  lemma GroupedIsTaken(s: string)
    requires s != [] && AllDigits(s)
    ensures '.' !in Grouped(s) && IsRupees(Grouped(s)) && Remove(Grouped(s), ',') == s
  {
    GroupedIsPlain(s);
    GroupedIsIndian(s);
    IndianMatches(Grouped(s));
    GroupedWithoutCommas(s);
  }

  /** Rupees that read as `s`, and a paise part worth `ps`. */
  lemma {:induction false} AmountMatches(g: string, s: string, f: string, ps: nat)
    requires '.' !in g && IsRupees(g) && s != [] && AllDigits(s) && Remove(g, ',') == s
    requires IsPaise(f, ps)
    ensures Matched(g + f) == Some(Value(s) * 100 + ps)
  {
    DotAfter(g, f);
  }

  lemma {:induction false} GroupedMatches(s: string, f: string, ps: nat)
    requires s != [] && AllDigits(s) && IsPaise(f, ps)
    ensures Matched(Grouped(s) + f) == Some(Value(s) * 100 + ps)
  {
    GroupedIsTaken(s);
    AmountMatches(Grouped(s), s, f, ps);
  }

  lemma {:induction false} PrintedMatches(r: nat, ps: nat)
    requires ps < 100
    ensures Matched(Grouped(Digits(r)) + PaisePart(ps)) == Some(r * 100 + ps)
  {
    DigitsHaveTheirValue(r);
    PaisePartIsPaise(ps);
    GroupedMatches(Digits(r), PaisePart(ps), ps);
  }

  lemma BodyMatches(q: nat)
    ensures Matched(Body(q)) == Some(q)
  {
    var rupees, ps := q / 100, q % 100;
    assert q == rupees * 100 + ps;
    PrintedMatches(rupees, ps);
    assert Body(q) == Grouped(Digits(rupees)) + PaisePart(ps);
  }

  lemma NothingToStrip(s: string)
    requires s != [] && s[0] != ' ' && s[|s| - 1] != ' '
    ensures Strip(s) == s
  {
  }

  /** A cell with nothing around its number. */
  lemma BareCell(s: string)
    requires s != [] && s[0] != ' ' && s[|s| - 1] != ' ' && s[0] != '='
    requires RUPEE !in s && '*' !in s
    ensures Clean(s) == s && Paise(s) == Number(s)
  {
    StarsAbsent(s);
    NothingToStrip(s);
    RemoveAbsent(s, RUPEE);
  }

  lemma NumberReads(neg: bool, body: string, cell: string)
    requires body != [] && IsDigit(body[0]) && IsDigit(body[|body| - 1])
    requires cell == Sign(neg) + body && Matched(body).Some?
    ensures Number(cell) == Some(if neg then -Matched(body).value else Matched(body).value)
  {
    SignComesOff(neg, body, IsMinus);
    assert IsDigit(cell[|cell| - 1]);
  }

  lemma NumberOfSigned(p: int, cell: string)
    requires cell == Sign(p < 0) + Body(Abs(p))
    ensures Number(cell) == Some(p)
  {
    BodyShape(Abs(p));
    BodyMatches(Abs(p));
    NumberReads(p < 0, Body(Abs(p)), cell);
  }

  lemma CellIsBare(p: int, dash: bool, showZero: bool)
    ensures var cell := Fmt(p, dash, showZero);
      && '*' !in cell && Clean(cell) == cell && Paise(cell) == Number(cell)
      && cell != [] && cell[0] != ' ' && cell[|cell| - 1] != ' '
  {
    FmtShape(p, dash, showZero);
    SignedIsBare(p, Sign(p < 0) + Body(Abs(p)));
    BareCell(Fmt(p, dash, showZero));
  }

  lemma PrintedNumber(p: int, dash: bool, showZero: bool)
    ensures Number(Fmt(p, dash, showZero)) == Some(p)
  {
    FmtShape(p, dash, showZero);
    if !Dashed(p, dash, showZero) {
      NumberOfSigned(p, Fmt(p, dash, showZero));
    }
  }

  lemma BoldCell(cell: string)
    requires '*' !in cell
    ensures Paise(Bold(cell)) == Paise(cell)
  {
    BoldIsPlain(cell);
  }

  /** For every amount the checker reads back what the producer printed, the dash for nil included, plain or bold. */
  lemma PaiseInvertsFmt(p: int, dash: bool, showZero: bool)
    ensures Paise(Fmt(p, dash, showZero)) == Some(p)
    ensures Paise(Bold(Fmt(p, dash, showZero))) == Some(p)
  {
    CellIsBare(p, dash, showZero);
    PrintedNumber(p, dash, showZero);
    BoldCell(Fmt(p, dash, showZero));
  }

  // ------------------------------------------------------------------ an amount with its side

  function SideOf(bal: int): string {
    if bal > 0 then "Dr" else if bal < 0 then "Cr" else DASH
  }

  function AmtSide(bal: int): string {
    Fmt(Abs(bal), true, true) + (if bal != 0 then " " + SideOf(bal) else "")
  }

  /** The checker's reader of an amount with a side: the words in front of the spaces before Dr or Cr. */
  function Signed(cell: string): Option<int> {
    var s := Clean(cell);
    var n := |s|;
    if n >= 3 && s[n - 3] == ' ' && (s[n - 2..] == "Dr" || s[n - 2..] == "Cr") then
      var v := Paise(StripRight(s[..n - 2]));
      if v.Some? && s[n - 2..] == "Cr" then Some(-v.value) else v
    else Paise(s)
  }

  lemma WordsAreClean(a: string, word: string)
    requires word == "Dr" || word == "Cr"
    requires a != [] && a[0] != ' ' && '*' !in a
    ensures Clean(a + " " + word) == a + " " + word
  {
    var s := a + " " + word;
    StarsAbsent(s);
    NothingToStrip(s);
  }

  /** The side word and the space before it come off. */
  lemma WordIsCut(a: string, word: string)
    requires |word| == 2
    ensures var s := a + " " + word;
      |s| == |a| + 3 && s[|s| - 3] == ' ' && s[|s| - 2..] == word && s[..|s| - 2] == a + " "
  {
  }

  lemma SpaceIsCut(a: string)
    requires a != [] && a[|a| - 1] != ' '
    ensures StripRight(a + " ") == a
  {
    assert (a + " ")[..|a|] == a;
    assert StripRight(a) == a;
  }

  lemma SideComesOff(a: string, word: string)
    requires word == "Dr" || word == "Cr"
    requires a != [] && a[0] != ' ' && a[|a| - 1] != ' ' && '*' !in a
    ensures Signed(a + " " + word) == if Paise(a).Some? && word == "Cr" then Some(-Paise(a).value) else Paise(a)
  {
    WordsAreClean(a, word);
    WordIsCut(a, word);
    SpaceIsCut(a);
  }

  lemma ShortCell(s: string)
    requires |s| < 3 && Clean(s) == s
    ensures Signed(s) == Paise(s)
  {
  }

  lemma AmtSideShape(bal: int)
    ensures AmtSide(bal) == if bal == 0 then "0" else Fmt(Abs(bal), true, true) + " " + SideOf(bal)
  {
    if bal != 0 {
      var a, w := Fmt(Abs(bal), true, true), SideOf(bal);
      assert a + (" " + w) == a + " " + w;
    } else {
      assert "0" + "" == "0";
    }
  }

  /** For every balance the checker reads back the amount and the side it stands on. */
  lemma SignedInvertsAmtSide(bal: int)
    ensures Signed(AmtSide(bal)) == Some(bal)
  {
    AmtSideShape(bal);
    CellIsBare(Abs(bal), true, true);
    PaiseInvertsFmt(Abs(bal), true, true);
    if bal == 0 {
      ShortCell(Fmt(Abs(bal), true, true));
    } else {
      SideComesOff(Fmt(Abs(bal), true, true), SideOf(bal));
    }
  }
}
