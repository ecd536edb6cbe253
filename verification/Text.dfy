/**
 The text conventions the governance engine relies on: code-point order on
 strings, `sorted(set)`, decimal integers, joined lists and tuple reprs.
 */
module Text {

  // ---------------------------------------------------------------- order

  /** Lexicographic order by code point. */
  predicate Leq(a: string, b: string) {
    if a == "" then true
    else if b == "" then false
    else if a[0] != b[0] then a[0] < b[0]
    else Leq(a[1..], b[1..])
  }

  lemma LeqTotal(a: string, b: string)
    ensures Leq(a, b) || Leq(b, a)
  {
  }

  lemma {:induction false} LeqAntisymmetric(a: string, b: string)
    requires Leq(a, b) && Leq(b, a)
    ensures a == b
  {
    if a != "" && b != "" {
      LeqAntisymmetric(a[1..], b[1..]);
      assert a == [a[0]] + a[1..] && b == [b[0]] + b[1..];
    }
  }

  lemma {:induction false} LeqTransitive(a: string, b: string, c: string)
    requires Leq(a, b) && Leq(b, c)
    ensures Leq(a, c)
  {
    if a != "" && b != "" && c != "" && a[0] == b[0] == c[0] {
      LeqTransitive(a[1..], b[1..], c[1..]);
    }
  }

  /** One text comes before another if it begins it, or has the smaller character where they first differ. */
  lemma {:induction false} LeqExactly(a: string, b: string)
    ensures Leq(a, b) <==> exists n :: 0 <= n <= |a| && n <= |b| && a[..n] == b[..n] && (n == |a| || (n < |b| && a[n] < b[n]))
  {
    if a == "" {
      assert a[..0] == b[..0];
    } else if b != "" {
      if a[0] == b[0] {
        LeqExactly(a[1..], b[1..]);
        if n :|
          && 0 <= n <= |a[1..]| && n <= |b[1..]| && a[1..][..n] == b[1..][..n]
          && (n == |a[1..]| || (n < |b[1..]| && a[1..][n] < b[1..][n]))
        {
          assert a[..n + 1] == [a[0]] + a[1..][..n] && b[..n + 1] == [b[0]] + b[1..][..n];
        }
        if n :| 0 <= n <= |a| && n <= |b| && a[..n] == b[..n] && (n == |a| || (n < |b| && a[n] < b[n])) {
          if n > 0 {
            assert a[1..][..n - 1] == a[..n][1..] && b[1..][..n - 1] == b[..n][1..];
          }
        }
      } else {
        assert a[..0] == b[..0];
        forall n | 0 < n <= |a| && n <= |b| ensures a[..n] != b[..n] {
          assert a[..n][0] == a[0] && b[..n][0] == b[0];
        }
      }
    }
  }

  // ---------------------------------------------------------- sorted(set)

  ghost predicate IsLeast(m: string, s: set<string>) {
    m in s && forall x | x in s :: Leq(m, x)
  }

  lemma {:induction false} LeastExists(s: set<string>)
    requires s != {}
    ensures exists m :: IsLeast(m, s)
    decreases |s|
  {
    var x :| x in s;
    LeqTotal(x, x);
    if s == {x} {
      assert IsLeast(x, s);
    } else {
      var rest := s - {x};
      LeastExists(rest);
      var m :| IsLeast(m, rest);
      LeqTotal(x, m);
      if Leq(m, x) {
        assert IsLeast(m, s);
      } else {
        forall y | y in s ensures Leq(x, y) {
          if y != x { LeqTransitive(x, m, y); }
        }
        assert IsLeast(x, s);
      }
    }
  }

  lemma LeastUnique(m: string, n: string, s: set<string>)
    requires IsLeast(m, s) && IsLeast(n, s)
    ensures m == n
  {
    LeqAntisymmetric(m, n);
  }

  function Least(s: set<string>): (m: string)
    requires s != {}
    ensures IsLeast(m, s)
  {
    LeastExists(s);
    assert forall m, n | IsLeast(m, s) && IsLeast(n, s) :: m == n by {
      forall m, n | IsLeast(m, s) && IsLeast(n, s) ensures m == n {
        LeastUnique(m, n, s);
      }
    }
    assert forall m | m in s && (forall x | x in s :: Leq(m, x)) :: IsLeast(m, s);
    var m :| m in s && forall x | x in s :: Leq(m, x);
    m
  }

  /** The ascending listing of a set: exactly its members, each once. */
  function Sorted(s: set<string>): (q: seq<string>)
    ensures forall x :: x in q <==> x in s
    ensures |q| == |s|
    decreases |s|
  {
    if s == {} then []
    else
      var m := Least(s);
      [m] + Sorted(s - {m})
  }

  function Elements<T>(q: seq<T>): set<T> {
    set x | x in q
  }

  lemma ElementsOfSorted(s: set<string>)
    ensures Elements(Sorted(s)) == s
  {
  }

  /** The listing ascends, and repeats nothing. */
  lemma {:induction false} SortedAscends(s: set<string>)
    ensures forall i, j | 0 <= i < j < |Sorted(s)| :: Leq(Sorted(s)[i], Sorted(s)[j]) && Sorted(s)[i] != Sorted(s)[j]
    decreases |s|
  {
    hide Leq;
    if s != {} {
      var m := Least(s);
      SortedAscends(s - {m});
      forall i | 0 <= i < |Sorted(s - {m})| ensures Leq(m, Sorted(s - {m})[i]) && Sorted(s - {m})[i] != m {
        assert Sorted(s - {m})[i] in Sorted(s - {m});
      }
    }
  }

  function SortedCells(cells: seq<set<string>>): (q: seq<seq<string>>)
    ensures |q| == |cells|
    ensures forall i | 0 <= i < |q| :: q[i] == Sorted(cells[i])
  {
    seq(|cells|, i requires 0 <= i < |cells| => Sorted(cells[i]))
  }

  function CellSets(q: seq<seq<string>>): (cells: seq<set<string>>)
    ensures |cells| == |q|
    ensures forall i | 0 <= i < |q| :: cells[i] == Elements(q[i])
  {
    seq(|q|, i requires 0 <= i < |q| => Elements(q[i]))
  }

  lemma CellsRoundTrip(cells: seq<set<string>>)
    ensures CellSets(SortedCells(cells)) == cells
  {
    forall i | 0 <= i < |cells| ensures CellSets(SortedCells(cells))[i] == cells[i] {
      ElementsOfSorted(cells[i]);
    }
  }

  // ------------------------------------------------- sorted list of cells

  predicate CellLeq(a: seq<string>, b: seq<string>) {
    if a == [] then true
    else if b == [] then false
    else if a[0] != b[0] then Leq(a[0], b[0])
    else CellLeq(a[1..], b[1..])
  }

  function InsertCell(cell: seq<string>, cells: seq<seq<string>>): (r: seq<seq<string>>)
    ensures multiset(r) == multiset(cells) + multiset{cell}
  {
    if cells == [] || CellLeq(cell, cells[0]) then [cell] + cells
    else
      assert cells == [cells[0]] + cells[1..];
      [cells[0]] + InsertCell(cell, cells[1..])
  }

  function SortCells(cells: seq<seq<string>>): (r: seq<seq<string>>)
    ensures multiset(r) == multiset(cells)
  {
    if cells == [] then []
    else
      assert cells == [cells[0]] + cells[1..];
      InsertCell(cells[0], SortCells(cells[1..]))
  }

  lemma {:induction false} CellLeqTotal(a: seq<string>, b: seq<string>)
    ensures CellLeq(a, b) || CellLeq(b, a)
  {
    if a != [] && b != [] {
      if a[0] == b[0] {
        CellLeqTotal(a[1..], b[1..]);
      } else {
        LeqTotal(a[0], b[0]);
      }
    }
  }

  lemma {:induction false} CellLeqAntisymmetric(a: seq<string>, b: seq<string>)
    requires CellLeq(a, b) && CellLeq(b, a)
    ensures a == b
  {
    if a != [] && b != [] {
      if a[0] == b[0] {
        CellLeqAntisymmetric(a[1..], b[1..]);
        assert a == [a[0]] + a[1..] && b == [b[0]] + b[1..];
      } else {
        LeqAntisymmetric(a[0], b[0]);
      }
    }
  }

  lemma {:induction false} CellLeqTransitive(a: seq<string>, b: seq<string>, c: seq<string>)
    requires CellLeq(a, b) && CellLeq(b, c)
    ensures CellLeq(a, c)
  {
    if a != [] && b != [] && c != [] {
      if a[0] == b[0] == c[0] {
        CellLeqTransitive(a[1..], b[1..], c[1..]);
      } else if a[0] != b[0] && b[0] != c[0] {
        LeqTransitive(a[0], b[0], c[0]);
        if a[0] == c[0] {
          LeqAntisymmetric(a[0], b[0]);
        }
      }
    }
  }

  ghost predicate Ascending(cells: seq<seq<string>>) {
    forall i, j | 0 <= i < j < |cells| :: CellLeq(cells[i], cells[j])
  }

  lemma {:induction false} InsertCellAscends(cell: seq<string>, cells: seq<seq<string>>)
    requires Ascending(cells)
    ensures Ascending(InsertCell(cell, cells))
  {
    hide CellLeq;
    if cells != [] {
      assert cells == [cells[0]] + cells[1..];
      if CellLeq(cell, cells[0]) {
        forall j | 0 <= j < |cells| ensures CellLeq(cell, cells[j]) {
          if j > 0 {
            CellLeqTransitive(cell, cells[0], cells[j]);
          }
        }
      } else {
        CellLeqTotal(cell, cells[0]);
        InsertCellAscends(cell, cells[1..]);
        var rest := InsertCell(cell, cells[1..]);
        forall j | 0 <= j < |rest| ensures CellLeq(cells[0], rest[j]) {
          assert rest[j] in multiset(rest);
          if rest[j] != cell {
            assert rest[j] in multiset(cells[1..]);
            var i :| 0 <= i < |cells[1..]| && cells[1..][i] == rest[j];
            assert cells[i + 1] == rest[j];
          }
        }
      }
    }
  }

  /** Sorting lists the cells in ascending order. */
  lemma {:induction false} SortCellsAscends(cells: seq<seq<string>>)
    ensures Ascending(SortCells(cells))
  {
    if cells != [] {
      SortCellsAscends(cells[1..]);
      InsertCellAscends(cells[0], SortCells(cells[1..]));
    }
  }

  lemma HeadOff<T>(p: seq<T>)
    requires p != []
    ensures p[0] in multiset(p) && multiset(p[1..]) == multiset(p) - multiset{p[0]}
  {
    assert p == [p[0]] + p[1..];
  }

  lemma SameSize<T>(p: seq<T>, q: seq<T>)
    requires multiset(p) == multiset(q)
    ensures |p| == |q|
  {
    assert |p| == |multiset(p)| && |q| == |multiset(q)|;
  }

  lemma {:induction false} AscendingIsUnique(p: seq<seq<string>>, q: seq<seq<string>>)
    requires Ascending(p) && Ascending(q) && multiset(p) == multiset(q)
    ensures p == q
  {
    hide CellLeq;
    SameSize(p, q);
    if p != [] {
      HeadOff(p);
      HeadOff(q);
      FirstIsLeast(p, q[0]);
      FirstIsLeast(q, p[0]);
      CellLeqAntisymmetric(p[0], q[0]);
      AscendingIsUnique(p[1..], q[1..]);
      assert p == [p[0]] + p[1..] && q == [q[0]] + q[1..];
    }
  }

  lemma FirstIsLeast(p: seq<seq<string>>, cell: seq<string>)
    requires Ascending(p) && p != [] && cell in multiset(p)
    ensures CellLeq(p[0], cell)
  {
    hide CellLeq;
    var i :| 0 <= i < |p| && p[i] == cell;
    CellLeqTotal(cell, cell);
  }

  /** Two lists of cells sort alike exactly when they are the same up to order. */
  lemma SortCellsForgetsOrder(p: seq<seq<string>>, q: seq<seq<string>>)
    ensures SortCells(p) == SortCells(q) <==> multiset(p) == multiset(q)
  {
    SortCellsAscends(p);
    SortCellsAscends(q);
    if multiset(p) == multiset(q) {
      AscendingIsUnique(SortCells(p), SortCells(q));
    }
  }

  /** A cell is listed as often as it occurs. */
  lemma {:induction false} SortedCellsCount(p: seq<set<string>>, cell: set<string>)
    ensures multiset(SortedCells(p))[Sorted(cell)] == multiset(p)[cell]
  {
    hide Sorted;
    if p != [] {
      HeadOff(p);
      HeadOff(SortedCells(p));
      assert SortedCells(p)[1..] == SortedCells(p[1..]);
      SortedCellsCount(p[1..], cell);
      ElementsOfSorted(cell);
      ElementsOfSorted(p[0]);
    }
  }

  lemma SortedCellsMeans(p: seq<set<string>>, q: seq<set<string>>)
    ensures multiset(SortedCells(p)) == multiset(SortedCells(q)) <==> multiset(p) == multiset(q)
  {
    hide Sorted, SortedCells;
    if multiset(SortedCells(p)) == multiset(SortedCells(q)) {
      forall cell ensures multiset(p)[cell] == multiset(q)[cell] {
        SortedCellsCount(p, cell);
        SortedCellsCount(q, cell);
      }
    }
    if multiset(p) == multiset(q) {
      forall x ensures multiset(SortedCells(p))[x] == multiset(SortedCells(q))[x] {
        if x in multiset(SortedCells(p)) || x in multiset(SortedCells(q)) {
          var cell :| Sorted(cell) == x;
          SortedCellsCount(p, cell);
          SortedCellsCount(q, cell);
        }
      }
    }
  }

  // ------------------------------------------------------------- decimals

  function DigitChar(d: nat): char
    requires d < 10
  {
    '0' + d as char
  }

  predicate AllDigits(s: string) {
    forall i | 0 <= i < |s| :: '0' <= s[i] <= '9'
  }

  function Digits(n: nat): (s: string)
    ensures s != "" && AllDigits(s)
  {
    if n < 10 then [DigitChar(n)] else Digits(n / 10) + [DigitChar(n % 10)]
  }

  function Decimal(n: int): string {
    if n < 0 then "-" + Digits(-n) else Digits(n)
  }

  ghost function DigitsValue(s: string): nat
    requires AllDigits(s)
  {
    if s == "" then 0
    else DigitsValue(s[..|s| - 1]) * 10 + (s[|s| - 1] as int - '0' as int)
  }

  lemma {:induction false} DigitsReadBack(n: nat)
    ensures DigitsValue(Digits(n)) == n
  {
    var s := Digits(n);
    if n < 10 {
      assert s[..|s| - 1] == "";
    } else {
      DigitsReadBack(n / 10);
      assert s[..|s| - 1] == Digits(n / 10);
    }
  }

  lemma DecimalSign(n: int)
    ensures Decimal(n) != "" && (Decimal(n)[0] == '-' <==> n < 0)
  {
    if n >= 0 {
      assert '0' <= Digits(n)[0];
    }
  }

  /** No two integers print alike. */
  lemma DecimalInjective(a: int, b: int)
    requires Decimal(a) == Decimal(b)
    ensures a == b
  {
    DecimalSign(a);
    DecimalSign(b);
    var m, n := if a < 0 then -a else a, if b < 0 then -b else b;
    assert Digits(m) == Digits(n) by {
      if a < 0 {
        assert Decimal(a)[1..] == Digits(m) && Decimal(b)[1..] == Digits(n);
      }
    }
    DigitsReadBack(m);
    DigitsReadBack(n);
  }

  lemma DecimalHasNoBar(n: int)
    ensures '|' !in Decimal(n)
  {
  }

  /** The part of a text before its first `sep` is determined by the text. */
  lemma {:induction false} HeadDetermined(sep: char, x: string, y: string, restX: string, restY: string)
    requires sep !in x && sep !in y
    requires x + [sep] + restX == y + [sep] + restY
    ensures x == y && restX == restY
  {
    var l, r := x + [sep] + restX, y + [sep] + restY;
    assert l[0] == if x == "" then sep else x[0];
    assert r[0] == if y == "" then sep else y[0];
    if x == "" {
      assert l[1..] == restX && r[1..] == restY;
    } else {
      assert y != "";
      assert l[1..] == x[1..] + [sep] + restX && r[1..] == y[1..] + [sep] + restY;
      HeadDetermined(sep, x[1..], y[1..], restX, restY);
      assert x == [x[0]] + x[1..] && y == [y[0]] + y[1..];
    }
  }

  // ------------------------------------------------------- joins and reprs

  function Join(sep: string, parts: seq<string>): string {
    if parts == [] then ""
    else if |parts| == 1 then parts[0]
    else parts[0] + sep + Join(sep, parts[1..])
  }

  function Escaped(quote: char, s: string): string {
    if s == "" then ""
    else (if s[0] == quote || s[0] == '\\' then ['\\', s[0]] else [s[0]]) + Escaped(quote, s[1..])
  }

  function StringRepr(s: string): string {
    var quote := if '\'' in s && '"' !in s then '"' else '\'';
    [quote] + Escaped(quote, s) + [quote]
  }

  function TupleRepr(parts: seq<string>): string {
    "(" + Join(", ", parts) + (if |parts| == 1 then "," else "") + ")"
  }

  function StringReprs(parts: seq<string>): seq<string> {
    seq(|parts|, i requires 0 <= i < |parts| => StringRepr(parts[i]))
  }

  function CellsRepr(cells: seq<seq<string>>): string {
    TupleRepr(seq(|cells|, i requires 0 <= i < |cells| => TupleRepr(StringReprs(cells[i]))))
  }

  // ---------------------------------------------------------------- strip

  predicate IsSpace(c: char) {
    c == ' ' || '\t' <= c <= '\r'
  }

  function StripLeft(s: string): (r: string)
    ensures |r| <= |s|
    ensures r == "" || !IsSpace(r[0])
    ensures s == "" || IsSpace(s[0]) || r == s
  {
    if s != "" && IsSpace(s[0]) then StripLeft(s[1..]) else s
  }

  function StripRight(s: string): (r: string)
    ensures |r| <= |s|
    ensures r == "" || !IsSpace(r[|r| - 1])
    ensures r == "" || r[0] == s[0]
    ensures s == "" || IsSpace(s[|s| - 1]) || r == s
  {
    if s != "" && IsSpace(s[|s| - 1]) then StripRight(s[..|s| - 1]) else s
  }

  function Strip(s: string): string {
    StripRight(StripLeft(s))
  }

  lemma StripIdempotent(s: string)
    ensures Strip(Strip(s)) == Strip(s)
  {
  }

  predicate Blank(c: char) {
    c == ' ' || ('\t' <= c && c <= '\r')
  }

  /** The text between the blanks at either end. */
  ghost predicate Trimmed(s: string, t: string) {
    exists i, j ::
      && 0 <= i <= j <= |s| && t == s[i..j]
      && (forall n | 0 <= n < i || j <= n < |s| :: Blank(s[n]))
      && (i < j ==> !Blank(s[i]) && !Blank(s[j - 1]))
  }

  lemma {:induction false} LeftTrims(s: string) returns (i: nat)
    ensures i <= |s| && StripLeft(s) == s[i..] && (forall n | 0 <= n < i :: Blank(s[n])) && (i < |s| ==> !Blank(s[i]))
  {
    if s != "" && IsSpace(s[0]) {
      i := LeftTrims(s[1..]);
      assert s[1..][i..] == s[i + 1..];
      assert forall n | 0 < n < i + 1 :: s[n] == s[1..][n - 1];
      i := i + 1;
    } else {
      i := 0;
    }
  }

  lemma {:induction false} RightTrims(s: string) returns (j: nat)
    ensures j <= |s| && StripRight(s) == s[..j] && (forall n | j <= n < |s| :: Blank(s[n])) && (j > 0 ==> !Blank(s[j - 1]))
  {
    if s != "" && IsSpace(s[|s| - 1]) {
      var shorter := s[..|s| - 1];
      j := RightTrims(shorter);
      assert shorter[..j] == s[..j];
      assert forall n | 0 <= n < |shorter| :: shorter[n] == s[n];
    } else {
      j := |s|;
    }
  }

  lemma StripTrims(s: string)
    ensures Trimmed(s, Strip(s))
  {
    var i := LeftTrims(s);
    var j := RightTrims(StripLeft(s));
    var left := StripLeft(s);
    assert left[..j] == s[i..i + j];
    assert forall n | 0 <= n < |left| :: left[n] == s[i + n];
    if j == 0 {
      assert i == |s|;
    }
  }

  lemma TrimmedIsOne(s: string, t: string, u: string)
    requires Trimmed(s, t) && Trimmed(s, u)
    ensures t == u
  {
    var i, j :| 0 <= i <= j <= |s| && t == s[i..j] && (forall n | 0 <= n < i || j <= n < |s| :: Blank(s[n]))
      && (i < j ==> !Blank(s[i]) && !Blank(s[j - 1]));
    var k, l :| 0 <= k <= l <= |s| && u == s[k..l] && (forall n | 0 <= n < k || l <= n < |s| :: Blank(s[n]))
      && (k < l ==> !Blank(s[k]) && !Blank(s[l - 1]));
  }

  /** Stripping takes the blanks off both ends, and nothing else. */
  lemma StripExactly(s: string, t: string)
    ensures Strip(s) == t <==> Trimmed(s, t)
  {
    StripTrims(s);
    if Trimmed(s, t) {
      TrimmedIsOne(s, t, Strip(s));
    }
  }
}
