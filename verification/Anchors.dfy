/**
 What an anchor names. The anchor of an admissible state names that state and no
 other, whatever characters its items are made of; the anchor of the open reviews
 names them as long as no review id holds the separator.
 */
module Anchors {
  import opened Text
  import opened Distinction

  // ----------------------------------------------------------------- scanning reprs

  /** Where a reader of a repr stands: between strings, in one, or just after a backslash in one. */
  datatype Place = Between | Inside(double: bool) | AfterBackslash(double: bool)

  datatype Scan = Stuck | At(place: Place)

  function Mark(double: bool): char {
    if double then '"' else '\''
  }

  function Read(p: Place, x: char): Scan {
    match p
    case Between =>
      if x == '\'' || x == '"' then At(Inside(x == '"'))
      else if x == '(' || x == ')' || x == ',' || x == ' ' then At(Between)
      else Stuck
    case Inside(double) => if x == Mark(double) then At(Between) else if x == '\\' then At(AfterBackslash(double)) else At(p)
    case AfterBackslash(double) => if x == Mark(double) || x == '\\' then At(Inside(double)) else Stuck
  }

  function ReadAll(from: Scan, text: string): Scan
    decreases text
  {
    if text == "" || from.Stuck? then from else ReadAll(Read(from.place, text[0]), text[1..])
  }

  lemma {:induction false} ReadOn(from: Scan, a: string, b: string)
    ensures ReadAll(from, a + b) == ReadAll(ReadAll(from, a), b)
    decreases a
  {
    if a == "" || from.Stuck? {
      assert a == "" ==> a + b == b;
      StuckStays(from, a + b);
      StuckStays(from, b);
    } else {
      assert (a + b)[1..] == a[1..] + b;
      ReadOn(Read(from.place, a[0]), a[1..], b);
    }
  }

  lemma {:induction false} StuckStays(from: Scan, text: string)
    ensures from.Stuck? ==> ReadAll(from, text) == from
  {
  }

  lemma {:induction false} OneRead(p: Place, x: char)
    ensures ReadAll(At(p), [x]) == Read(p, x)
  {
    assert [x][1..] == "";
  }

  lemma {:induction false} EscapedReads(double: bool, s: string)
    ensures ReadAll(At(Inside(double)), Escaped(Mark(double), s)) == At(Inside(double))
  {
    var quote := Mark(double);
    if s != "" {
      var head := if s[0] == quote || s[0] == '\\' then ['\\', s[0]] else [s[0]];
      ReadOn(At(Inside(double)), head, Escaped(quote, s[1..]));
      assert ReadAll(At(Inside(double)), head) == At(Inside(double)) by {
        if s[0] == quote || s[0] == '\\' {
          assert head == ['\\'] + [s[0]];
          ReadOn(At(Inside(double)), ['\\'], [s[0]]);
          OneRead(Inside(double), '\\');
          OneRead(AfterBackslash(double), s[0]);
        } else {
          OneRead(Inside(double), s[0]);
        }
      }
      EscapedReads(double, s[1..]);
    }
  }

  lemma StringReads(s: string)
    ensures ReadAll(At(Between), StringRepr(s)) == At(Between)
  {
    var quote := StringRepr(s)[0];
    var double := quote == '"';
    assert StringRepr(s) == [quote] + Escaped(quote, s) + [quote];
    ReadOn(At(Between), [quote], Escaped(quote, s));
    ReadOn(At(Between), [quote] + Escaped(quote, s), [quote]);
    OneRead(Between, quote);
    OneRead(Inside(double), quote);
    EscapedReads(double, s);
  }

  lemma CommaReads()
    ensures ReadAll(At(Between), ", ") == At(Between) && ReadAll(At(Between), ",") == At(Between)
    ensures ReadAll(At(Between), "(") == At(Between) && ReadAll(At(Between), ")") == At(Between)
    ensures ReadAll(At(Between), "") == At(Between)
  {
    assert ", " == "," + " ";
    ReadOn(At(Between), ",", " ");
    OneRead(Between, ',');
    OneRead(Between, ' ');
    OneRead(Between, '(');
    OneRead(Between, ')');
  }

  lemma {:induction false} JoinReads(parts: seq<string>)
    requires forall p | p in parts :: ReadAll(At(Between), p) == At(Between)
    ensures ReadAll(At(Between), Join(", ", parts)) == At(Between)
  {
    if |parts| > 1 {
      CommaReads();
      JoinReads(parts[1..]);
      ReadOn(At(Between), parts[0] + ", ", Join(", ", parts[1..]));
      ReadOn(At(Between), parts[0], ", ");
    }
  }

  lemma TupleReads(parts: seq<string>)
    requires forall p | p in parts :: ReadAll(At(Between), p) == At(Between)
    ensures ReadAll(At(Between), TupleRepr(parts)) == At(Between)
  {
    CommaReads();
    JoinReads(parts);
    var comma := if |parts| == 1 then "," else "";
    ReadOn(At(Between), "(", Join(", ", parts));
    ReadOn(At(Between), "(" + Join(", ", parts), comma);
    ReadOn(At(Between), "(" + Join(", ", parts) + comma, ")");
  }

  /** A reader of a whole partition never gets stuck and ends between strings. */
  lemma CellsRead(cells: seq<seq<string>>)
    ensures ReadAll(At(Between), CellsRepr(cells)) == At(Between)
  {
    hide ReadAll, TupleRepr, StringRepr;
    var parts := seq(|cells|, i requires 0 <= i < |cells| => TupleRepr(StringReprs(cells[i])));
    forall p | p in parts ensures ReadAll(At(Between), p) == At(Between) {
      var i :| 0 <= i < |parts| && parts[i] == p;
      forall q | q in StringReprs(cells[i]) ensures ReadAll(At(Between), q) == At(Between) {
        var j :| 0 <= j < |cells[i]| && StringRepr(cells[i][j]) == q;
        StringReads(cells[i][j]);
      }
      TupleReads(StringReprs(cells[i]));
    }
    TupleReads(parts);
  }

  /** Two readers of the same text that will never both stand between strings. */
  predicate Apart(p: Place, q: Place) {
    match (p, q)
    case (Between, Inside(_)) => true
    case (Inside(_), Between) => true
    case (Inside(a), Inside(b)) => a != b
    case (AfterBackslash(a), AfterBackslash(b)) => a != b
    case _ => false
  }

  lemma {:induction false} StayApart(p: Place, q: Place, text: string)
    requires Apart(p, q) && ReadAll(At(p), text).At? && ReadAll(At(q), text).At?
    ensures Apart(ReadAll(At(p), text).place, ReadAll(At(q), text).place)
    decreases text
  {
    if text != "" {
      StuckStays(Read(p, text[0]), text[1..]);
      StuckStays(Read(q, text[0]), text[1..]);
      StayApart(Read(p, text[0]).place, Read(q, text[0]).place, text[1..]);
    }
  }

  /** No repr ends in another that follows an equals sign. */
  lemma NoReprWithin(cells: seq<seq<string>>, others: seq<seq<string>>, before: string)
    ensures CellsRepr(cells) != before + ['='] + CellsRepr(others)
  {
    hide CellsRepr;
    if CellsRepr(cells) == before + ['='] + CellsRepr(others) {
      CellsRead(cells);
      CellsRead(others);
      ReadOn(At(Between), before + ['='], CellsRepr(others));
      ReadOn(At(Between), before, ['=']);
      var p := ReadAll(At(Between), before);
      StuckStays(p, ['=']);
      if p.At? {
        OneRead(p.place, '=');
        StuckStays(Read(p.place, '='), CellsRepr(others));
        StayApart(Read(p.place, '=').place, Between, CellsRepr(others));
      } else {
        StuckStays(p, CellsRepr(others));
      }
    }
  }

  // ------------------------------------------------------- a repr says what it is of

  /** Two texts that begin alike as far as the shorter goes are the same text. */
  predicate Delimited(a: string, b: string) {
    a <= b || b <= a ==> a == b
  }

  lemma FirstQuote(quote: char, s: string, r: string)
    requires quote == '\'' || quote == '"'
    ensures (Escaped(quote, s) + [quote] + r)[0] == quote <==> s == ""
    ensures s == "" ==> (Escaped(quote, s) + [quote] + r)[1..] == r
  {
  }

  lemma {:induction false} EscapedEnds(quote: char, s: string, t: string, r: string, u: string)
    requires quote == '\'' || quote == '"'
    requires Escaped(quote, s) + [quote] + r == Escaped(quote, t) + [quote] + u
    ensures s == t && r == u
  {
    var a, b := Escaped(quote, s) + [quote] + r, Escaped(quote, t) + [quote] + u;
    FirstQuote(quote, s, r);
    FirstQuote(quote, t, u);
    if s == "" {
      assert t == "";
    } else {
      var x, y := Escaped(quote, s[1..]) + [quote] + r, Escaped(quote, t[1..]) + [quote] + u;
      var m, n := if s[0] == quote || s[0] == '\\' then ['\\', s[0]] else [s[0]],
                  if t[0] == quote || t[0] == '\\' then ['\\', t[0]] else [t[0]];
      assert a == m + x && b == n + y;
      assert a[0] == m[0] && b[0] == n[0];
      assert |m| == |n|;
      assert a[|m| - 1] == s[0] && b[|m| - 1] == t[0];
      assert a[|m|..] == x && b[|n|..] == y;
      EscapedEnds(quote, s[1..], t[1..], r, u);
      assert s == [s[0]] + s[1..] && t == [t[0]] + t[1..];
    }
  }

  lemma StringEnds(s: string, t: string, r: string, u: string)
    requires StringRepr(s) + r == StringRepr(t) + u
    ensures s == t && r == u
  {
    var p, q := StringRepr(s)[0], StringRepr(t)[0];
    var a, b := StringRepr(s) + r, StringRepr(t) + u;
    assert a[0] == p && b[0] == q;
    assert a[1..] == Escaped(p, s) + [p] + r && b[1..] == Escaped(q, t) + [q] + u;
    EscapedEnds(p, s, t, r, u);
  }

  /** The rest of a tuple after its first part, where there is more than one. */
  function Rest(parts: seq<string>): string {
    if parts == [] then ")" else ", " + parts[0] + Rest(parts[1..])
  }

  lemma {:induction false} JoinIsRest(parts: seq<string>)
    requires parts != []
    ensures Join(", ", parts) + ")" == parts[0] + Rest(parts[1..])
  {
    if |parts| > 1 {
      JoinIsRest(parts[1..]);
      assert parts[1..][0] == parts[1] && parts[1..][1..] == parts[2..];
      assert Join(", ", parts) + ")" == parts[0] + ", " + (Join(", ", parts[1..]) + ")");
    }
  }

  lemma TupleIs(parts: seq<string>)
    ensures TupleRepr(parts) == if parts == [] then "()" else if |parts| == 1 then "(" + parts[0] + ",)"
                                else "(" + (parts[0] + Rest(parts[1..]))
  {
    if |parts| > 1 {
      JoinIsRest(parts);
      assert TupleRepr(parts) == "(" + (Join(", ", parts) + ")");
    } else if |parts| == 1 {
      assert TupleRepr(parts) == "(" + parts[0] + "," + ")";
    }
  }

  ghost predicate AllDelimited(p: seq<string>, q: seq<string>) {
    forall x, y | x in p && y in q :: Delimited(x, y)
  }

  lemma OneBegins(a: string, b: string, r: string, u: string)
    requires a + r == b + u
    ensures a <= b || b <= a
  {
    if |a| <= |b| {
      assert (b + u)[..|a|] == a;
    } else {
      assert (a + r)[..|b|] == b;
    }
  }

  lemma PartEnds(a: string, b: string, r: string, u: string)
    requires Delimited(a, b) && a + r == b + u
    ensures a == b && r == u
  {
    OneBegins(a, b, r, u);
    assert (a + r)[|a|..] == r && (b + u)[|b|..] == u;
  }

  lemma {:induction false} RestEnds(p: seq<string>, q: seq<string>, r: string, u: string)
    requires AllDelimited(p, q) && Rest(p) + r == Rest(q) + u
    ensures p == q && r == u
  {
    var a, b := Rest(p) + r, Rest(q) + u;
    assert a[0] == if p == [] then ')' else ',';
    assert b[0] == if q == [] then ')' else ',';
    if p == [] {
      assert a[1..] == r && b[1..] == u;
    } else {
      assert a[2..] == p[0] + (Rest(p[1..]) + r) && b[2..] == q[0] + (Rest(q[1..]) + u);
      PartEnds(p[0], q[0], Rest(p[1..]) + r, Rest(q[1..]) + u);
      RestEnds(p[1..], q[1..], r, u);
      assert p == [p[0]] + p[1..] && q == [q[0]] + q[1..];
    }
  }

  /** No part can be taken for the end of a tuple. */
  predicate Opens(part: string) {
    part != "" && part[0] != ')'
  }

  /** How a tuple goes on after its opening and, if any, its first part. */
  function Closing(parts: seq<string>): string {
    if |parts| <= 1 then ",)" else Rest(parts[1..])
  }

  lemma TupleStarts(p: seq<string>, r: string)
    requires forall x | x in p :: Opens(x)
    ensures |TupleRepr(p) + r| > 1 && ((TupleRepr(p) + r)[1] == ')' <==> p == [])
    ensures p == [] ==> (TupleRepr(p) + r)[2..] == r
    ensures p != [] ==> (TupleRepr(p) + r)[1..] == p[0] + (Closing(p) + r)
  {
    hide TupleRepr, Closing;
    if p == [] {
      TupleIs(p);
    } else {
      assert p[0] in p;
      TupleIsOpened(p);
      AfterOpening(p[0], Closing(p), r);
    }
  }

  lemma TupleIsOpened(p: seq<string>)
    requires p != []
    ensures TupleRepr(p) == "(" + (p[0] + Closing(p))
  {
    hide TupleRepr, Rest;
    TupleIs(p);
  }

  lemma AfterOpening(first: string, closing: string, r: string)
    requires Opens(first)
    ensures |"(" + (first + closing) + r| > 1 && ("(" + (first + closing) + r)[1] != ')'
    ensures ("(" + (first + closing) + r)[1..] == first + (closing + r)
  {
  }

  lemma TupleEnds(p: seq<string>, q: seq<string>, r: string, u: string)
    requires AllDelimited(p, q) && (forall x | x in p :: Opens(x)) && (forall x | x in q :: Opens(x))
    requires TupleRepr(p) + r == TupleRepr(q) + u
    ensures p == q && r == u
  {
    hide TupleRepr, Rest, Closing;
    TupleStarts(p, r);
    TupleStarts(q, u);
    if p != [] {
      assert p[0] in p && q[0] in q;
      PartEnds(p[0], q[0], Closing(p) + r, Closing(q) + u);
      ClosingEnds(p, q, r, u);
    }
  }

  lemma ClosingEnds(p: seq<string>, q: seq<string>, r: string, u: string)
    requires AllDelimited(p, q) && p != [] && q != [] && p[0] == q[0] && Closing(p) + r == Closing(q) + u
    ensures p == q && r == u
  {
    hide Rest;
    assert p == [p[0]] + p[1..] && q == [q[0]] + q[1..];
    assert forall x | x in p[1..] :: x in p;
    assert forall y | y in q[1..] :: y in q;
    EndsAgree(p[1..], q[1..], r, u);
  }

  lemma {:induction false} EndsAgree(p: seq<string>, q: seq<string>, r: string, u: string)
    requires AllDelimited(p, q)
    requires (if p == [] then ",)" else Rest(p)) + r == (if q == [] then ",)" else Rest(q)) + u
    ensures p == q && r == u
  {
    var a, b := (if p == [] then ",)" else Rest(p)) + r, (if q == [] then ",)" else Rest(q)) + u;
    assert a[1] == if p == [] then ')' else ' ';
    assert b[1] == if q == [] then ')' else ' ';
    if p == [] {
      assert a[2..] == r && b[2..] == u;
    } else {
      RestEnds(p, q, r, u);
    }
  }

  lemma StringsDelimited(p: seq<string>, q: seq<string>)
    ensures AllDelimited(StringReprs(p), StringReprs(q))
    ensures forall x | x in StringReprs(p) :: Opens(x)
    ensures StringReprs(p) == StringReprs(q) ==> p == q
  {
    hide StringRepr;
    forall x, y | x in StringReprs(p) && y in StringReprs(q) ensures Delimited(x, y) {
      var i :| 0 <= i < |p| && StringRepr(p[i]) == x;
      var j :| 0 <= j < |q| && StringRepr(q[j]) == y;
      if x <= y {
        StringEnds(p[i], q[j], y[|x|..], "");
      } else if y <= x {
        StringEnds(p[i], q[j], "", x[|y|..]);
      }
    }
    forall x | x in StringReprs(p) ensures Opens(x) {
      var i :| 0 <= i < |p| && StringRepr(p[i]) == x;
      StringOpens(p[i]);
    }
    if StringReprs(p) == StringReprs(q) {
      forall i | 0 <= i < |p| ensures p[i] == q[i] {
        assert StringReprs(p)[i] == StringReprs(q)[i];
        StringEnds(p[i], q[i], "", "");
      }
    }
  }

  lemma StringOpens(s: string)
    ensures Opens(StringRepr(s))
  {
  }

  lemma CellEnds(p: seq<string>, q: seq<string>, r: string, u: string)
    requires TupleRepr(StringReprs(p)) + r == TupleRepr(StringReprs(q)) + u
    ensures p == q && r == u
  {
    hide TupleRepr, StringReprs, AllDelimited, Opens;
    StringsDelimited(p, q);
    StringsDelimited(q, p);
    TupleEnds(StringReprs(p), StringReprs(q), r, u);
  }

  /** Different partitions are written differently, whatever their items are. */
  lemma CellsReprInjective(p: seq<seq<string>>, q: seq<seq<string>>)
    requires CellsRepr(p) == CellsRepr(q)
    ensures p == q
  {
    hide TupleRepr, StringReprs;
    var a, b := seq(|p|, i requires 0 <= i < |p| => TupleRepr(StringReprs(p[i]))),
                seq(|q|, i requires 0 <= i < |q| => TupleRepr(StringReprs(q[i])));
    forall x, y | x in a && y in b ensures Delimited(x, y) {
      var i :| 0 <= i < |p| && a[i] == x;
      var j :| 0 <= j < |q| && b[j] == y;
      if x <= y {
        CellEnds(p[i], q[j], y[|x|..], "");
      } else if y <= x {
        CellEnds(p[i], q[j], "", x[|y|..]);
      }
    }
    forall x | x in a ensures Opens(x) {
      var i :| 0 <= i < |p| && a[i] == x;
      TupleOpens(StringReprs(p[i]));
    }
    forall x | x in b ensures Opens(x) {
      var i :| 0 <= i < |q| && b[i] == x;
      TupleOpens(StringReprs(q[i]));
    }
    TupleEnds(a, b, "", "");
    forall i | 0 <= i < |p| ensures p[i] == q[i] {
      assert a[i] == b[i];
      CellEnds(p[i], q[i], "", "");
    }
  }

  lemma TupleOpens(parts: seq<string>)
    ensures Opens(TupleRepr(parts))
  {
  }

  // -------------------------------------------------------------- anchors of states

  lemma {:induction false} PartsFixWhole(p: seq<set<string>>, q: seq<set<string>>, s: set<string>, t: set<string>)
    requires multiset(p) == multiset(q) && ExactCover(p, s) && ExactCover(q, t)
    ensures s == t
  {
    ExactCoverMeans(p, s);
    ExactCoverMeans(q, t);
    forall x ensures x in s <==> x in t {
      SameParts(p, q, x);
      SameParts(q, p, x);
    }
  }

  lemma SameParts(p: seq<set<string>>, q: seq<set<string>>, x: string)
    requires multiset(p) == multiset(q)
    ensures (exists i | 0 <= i < |p| :: x in p[i]) ==> exists i | 0 <= i < |q| :: x in q[i]
  {
    if i :| 0 <= i < |p| && x in p[i] {
      assert p[i] in multiset(p);
      var j :| 0 <= j < |q| && q[j] == p[i];
    }
  }

  /** The last part of a text that ends in a repr can be read in one way only. */
  lemma EndingEnds(x: string, y: string, p: seq<seq<string>>, q: seq<seq<string>>)
    requires x + "|partition=" + CellsRepr(p) == y + "|partition=" + CellsRepr(q)
    ensures p == q
  {
    hide CellsRepr;
    var a, b := CellsRepr(p), CellsRepr(q);
    var whole := x + "|partition=" + a;
    if |a| == |b| {
      assert whole[|whole| - |a|..] == a && whole[|whole| - |b|..] == b;
      CellsReprInjective(p, q);
    } else if |a| < |b| {
      LongerHolds(x + "|partition=", y + "|partition=", a, b);
      var before := b[..|b| - |a| - 1];
      NoReprWithin(q, p, before);
    } else {
      LongerHolds(y + "|partition=", x + "|partition=", b, a);
      var before := a[..|a| - |b| - 1];
      NoReprWithin(p, q, before);
    }
  }

  lemma LongerHolds(x: string, y: string, a: string, b: string)
    requires x != "" && x[|x| - 1] == '=' && x + a == y + b && |a| < |b|
    ensures b == b[..|b| - |a| - 1] + ['='] + a
  {
    var whole, k := x + a, |b| - |a|;
    assert whole[|y|..] == b;
    assert whole[|x|..] == a && b[k..] == a;
    assert whole[|x| - 1] == '=' && b[k - 1] == '=';
    assert b == b[..k - 1] + [b[k - 1]] + b[k..];
  }

  function Ending(s: DistinctionState): string {
    Join(",", Sorted(s.scope)) + "|partition=" + CellsRepr(CanonicalPartition(s.partition))
  }

  lemma TailIs(s: DistinctionState)
    ensures AnchorTail(s) == "q=" + (s.qualification + ['|'] + ("a=" + (s.activation + ['|'] + ("scope=" + Ending(s)))))
  {
    hide CanonicalPartition, CellsRepr, Join, Sorted;
    var q, a := s.qualification, s.activation;
    var scope, cells := Join(",", Sorted(s.scope)), CellsRepr(CanonicalPartition(s.partition));
    assert "|a=" == ['|'] + "a=" && "|scope=" == ['|'] + "scope=";
    Rebracketed("q=", q, ['|'], "a=", a, "scope=", scope, "|partition=", cells);
  }

  lemma Rebracketed(
    a: string, b: string, bar: string, c: string, d: string, e: string, f: string, g: string, h: string
  )
    ensures a + b + (bar + c) + d + (bar + e) + f + g + h == a + (b + bar + (c + (d + bar + (e + (f + g + h)))))
  {
  }

  lemma NextField(name: string, x: string, y: string, r: string, u: string)
    requires '|' !in x && '|' !in y
    requires name + (x + ['|'] + r) == name + (y + ['|'] + u)
    ensures x == y && r == u
  {
    assert (name + (x + ['|'] + r))[|name|..] == x + ['|'] + r;
    assert (name + (y + ['|'] + u))[|name|..] == y + ['|'] + u;
    HeadDetermined('|', x, y, r, u);
  }

  lemma TailTells(a: DistinctionState, b: DistinctionState)
    requires '|' !in a.qualification && '|' !in b.qualification && '|' !in a.activation && '|' !in b.activation
    requires AnchorTail(a) == AnchorTail(b)
    ensures a.qualification == b.qualification && a.activation == b.activation
    ensures CanonicalPartition(a.partition) == CanonicalPartition(b.partition)
  {
    hide AnchorTail, Ending, CanonicalPartition;
    TailIs(a);
    TailIs(b);
    NextField("q=", a.qualification, b.qualification,
              "a=" + (a.activation + ['|'] + ("scope=" + Ending(a))), "a=" + (b.activation + ['|'] + ("scope=" + Ending(b))));
    NextField("a=", a.activation, b.activation, "scope=" + Ending(a), "scope=" + Ending(b));
    assert ("scope=" + Ending(a))[6..] == Ending(a) && ("scope=" + Ending(b))[6..] == Ending(b);
    EndingTells(a, b);
  }

  lemma EndingTells(a: DistinctionState, b: DistinctionState)
    requires Ending(a) == Ending(b)
    ensures CanonicalPartition(a.partition) == CanonicalPartition(b.partition)
  {
    EndingEnds(Join(",", Sorted(a.scope)), Join(",", Sorted(b.scope)),
               CanonicalPartition(a.partition), CanonicalPartition(b.partition));
  }

  /**
   Two admissible states are named by the same anchor exactly when they agree in
   version, qualification, activation, scope and cells, whatever their items are
   called; only the order of the cells is not told.
   */
  lemma AnchorNamesOneState(k: string, a: DistinctionState, l: string, b: DistinctionState)
    requires StateAdmissibleFor(k, a) && StateAdmissibleFor(l, b)
    ensures StateAnchor(a) == StateAnchor(b) <==>
      && a.version == b.version && a.qualification == b.qualification && a.activation == b.activation
      && a.scope == b.scope && multiset(a.partition) == multiset(b.partition)
  {
    hide CanonicalPartition, AnchorTail, ExactCover;
    CanonicalPartitionMeans(a.partition, b.partition);
    if StateAnchor(a) == StateAnchor(b) {
      AnchorFixesVersion(a, b);
      assert StateAnchor(a)[2..][|Decimal(a.version)|..][1..] == AnchorTail(a);
      assert StateAnchor(b)[2..][|Decimal(b.version)|..][1..] == AnchorTail(b);
      TailTells(a, b);
      PartsFixWhole(a.partition, b.partition, a.scope, b.scope);
    } else if multiset(a.partition) == multiset(b.partition) {
      SameTail(a, b);
    }
  }

  lemma SameTail(a: DistinctionState, b: DistinctionState)
    requires CanonicalPartition(a.partition) == CanonicalPartition(b.partition)
    ensures a.qualification == b.qualification && a.activation == b.activation && a.scope == b.scope ==> AnchorTail(a) == AnchorTail(b)
  {
  }

  /** So a transition decided upon under an admissible state's anchor is applied to no other state. */
  lemma AppliedToTheStateDecidedUpon(
    config: Configuration, a: GovernedApplication, authority: AuthorityCheck, freshness: FreshnessLookup,
    k: string, decidedOn: DistinctionState
  )
    requires GlobalStateAdmissible(config) && StateAdmissibleFor(k, decidedOn)
    requires ApplyStateTransition(config, a, authority, freshness).Some?
    requires config.decisions[a.decisionRef].expectedStateAnchor == StateAnchor(decidedOn)
    ensures a.schemeId in config.states
    ensures var s := config.states[a.schemeId];
      && s.version == decidedOn.version && s.qualification == decidedOn.qualification && s.activation == decidedOn.activation
      && s.scope == decidedOn.scope && multiset(s.partition) == multiset(decidedOn.partition)
  {
    hide StateAnchor, StateAdmissibleFor, BasisUnchanged, NoInvalidatingReview, MatchesSnapshot;
    AnchorNamesOneState(a.schemeId, config.states[a.schemeId], k, decidedOn);
  }

  lemma OneListed(x: string)
    ensures Sorted({x}) == [x]
  {
    assert |Sorted({x})| == 1;
    assert Sorted({x})[0] in Sorted({x});
  }

  lemma TwoListed(x: string, y: string)
    requires Leq(x, y) && x != y
    ensures Sorted({x, y}) == [x, y]
  {
    var refs := Sorted({x, y});
    SortedAscends({x, y});
    assert |refs| == |{x, y}| == 2;
    assert x in refs && y in refs;
    if refs[0] == y {
      LeqAntisymmetric(x, y);
    }
  }

  lemma {:induction false} SortedPair(x: seq<string>, y: seq<string>)
    requires !CellLeq(x, y)
    ensures SortCells([x, y]) == [y, x]
  {
    hide CellLeq;
    assert [x, y][1..] == [y] && [y][1..] == [];
    assert SortCells([y]) == [y];
    assert InsertCell(x, [y]) == [y] + InsertCell(x, [y][1..]);
  }

  lemma {:induction false} TwoCells()
    ensures CanonicalPartition([{"b"}, {"a"}]) == [["a"], ["b"]]
  {
    hide SortCells, Sorted;
    OneListed("a");
    OneListed("b");
    assert SortedCells([{"b"}, {"a"}]) == [["b"], ["a"]];
    assert !Leq("b", "a");
    SortedPair(["b"], ["a"]);
  }

  lemma {:induction false} LetterText(x: string)
    requires |x| == 1 && x[0] != '\'' && x[0] != '"' && x[0] != '\\'
    ensures TupleRepr(StringReprs([x])) == "('" + x + "',)"
  {
    hide TupleRepr;
    assert x[1..] == "" && Escaped('\'', "") == "";
    assert StringReprs([x]) == [StringRepr(x)];
    assert StringRepr(x) == "'" + x + "'";
    TupleIs([StringRepr(x)]);
    assert "(" + ("'" + x + "'") + ",)" == "('" + x + "',)";
  }

  lemma {:induction false} PairText(x: string, y: string)
    ensures TupleRepr([x, y]) == "(" + (x + (", " + y + ")"))
  {
    hide TupleRepr;
    TupleIs([x, y]);
    assert [x, y][1..] == [y] && [y][1..] == [];
    assert Rest([]) == ")";
    assert Rest([y]) == ", " + y + Rest([y][1..]);
  }

  lemma {:induction false} TwoCellsText()
    ensures CellsRepr([["a"], ["b"]]) == "(('a',), ('b',))"
  {
    hide TupleRepr, StringReprs;
    LetterText("a");
    LetterText("b");
    assert "('" + "a" + "',)" == "('a',)" && "('" + "b" + "',)" == "('b',)";
    var cells := [["a"], ["b"]];
    assert seq(|cells|, i requires 0 <= i < |cells| => TupleRepr(StringReprs(cells[i]))) == ["('a',)", "('b',)"];
    PairText("('a',)", "('b',)");
  }

  /** One anchor in full. */
  lemma {:induction false} AnchorText()
    ensures StateAnchor(DistinctionState("qualified", "active", {"b", "a"}, [{"b"}, {"a"}], 12))
         == "v=12" + "|q=qualified" + "|a=active" + "|scope=a,b" + "|partition=(('a',), ('b',))"
  {
    hide CellsRepr, CanonicalPartition, Sorted, Join, Digits;
    var s := DistinctionState("qualified", "active", {"b", "a"}, [{"b"}, {"a"}], 12);
    ScopeText();
    TwoCells();
    TwoCellsText();
    VersionText();
    assert "v=12" == "v=" + "12" && "|q=qualified" == ['|'] + "q=" + "qualified" && "|a=active" == "|a=" + "active";
    assert "|scope=a,b" == "|scope=" + "a,b" && "|partition=(('a',), ('b',))" == "|partition=" + "(('a',), ('b',))";
    Bracketed("v=", "12", ['|'], "q=", "qualified", "|a=", "active", "|scope=", "a,b", "|partition=", "(('a',), ('b',))");
  }

  lemma Bracketed(
    a: string, b: string, bar: string, c: string, d: string, e: string, f: string, g: string, h: string, i: string, j: string
  )
    ensures a + (b + bar + (c + d + e + f + (g + h) + (i + j))) == a + b + (bar + c + d) + (e + f) + (g + h) + (i + j)
    ensures c + d + e + f + (g + h) + (i + j) == c + d + e + f + g + h + i + j
  {
  }

  lemma {:induction false} ScopeText()
    ensures Join(",", Sorted({"b", "a"})) == "a,b"
  {
    assert Leq("a", "b");
    TwoListed("a", "b");
    assert {"b", "a"} == {"a", "b"};
    assert ["a", "b"][1..] == ["b"];
  }

  lemma {:induction false} VersionText()
    ensures Decimal(12) == "12"
  {
    assert Digits(12) == Digits(1) + [DigitChar(2)];
  }

  // ------------------------------------------------------------- anchors of reviews

  predicate Barless(parts: seq<string>) {
    forall p | p in parts :: '|' !in p
  }

  lemma {:induction false} JoinHasBar(parts: seq<string>)
    requires Barless(parts)
    ensures '|' in Join("|", parts) <==> |parts| > 1
    ensures |parts| > 1 ==> Join("|", parts) == parts[0] + ['|'] + Join("|", parts[1..])
  {
    if |parts| == 1 {
      assert parts[0] in parts;
    }
  }

  lemma {:induction false} JoinTells(p: seq<string>, q: seq<string>)
    requires Barless(p) && Barless(q) && Join("|", p) == Join("|", q)
    ensures p == q || ((p == [] || p == [""]) && (q == [] || q == [""]))
  {
    JoinHasBar(p);
    JoinHasBar(q);
    if |p| > 1 {
      assert p[0] in p && q[0] in q;
      HeadDetermined('|', p[0], q[0], Join("|", p[1..]), Join("|", q[1..]));
      JoinTells(p[1..], q[1..]);
      assert p == [p[0]] + p[1..] && q == [q[0]] + q[1..];
    }
  }

  /** Open reviews whose ids hold no bar are told apart by their anchor, but for a single nameless one and none at all. */
  lemma ReviewsAnchorExactly(p: map<string, ReviewObligation>, q: map<string, ReviewObligation>)
    requires forall id | id in p || id in q :: '|' !in id
    ensures ObligationsAnchor(p) == ObligationsAnchor(q) <==> p.Keys == q.Keys || (p.Keys <= {""} && q.Keys <= {""})
  {
    hide Join;
    ElementsOfSorted(p.Keys);
    ElementsOfSorted(q.Keys);
    if ObligationsAnchor(p) == ObligationsAnchor(q) {
      JoinTells(Sorted(p.Keys), Sorted(q.Keys));
    } else if p.Keys <= {""} && q.Keys <= {""} {
      NamelessOrNone(p.Keys);
      NamelessOrNone(q.Keys);
    }
  }

  lemma NamelessOrNone(ids: set<string>)
    requires ids <= {""}
    ensures Join("|", Sorted(ids)) == ""
  {
    if ids != {} {
      assert ids == {""};
      assert |Sorted(ids)| == 1;
      assert Sorted(ids)[0] in Sorted(ids);
    }
  }

  /** A bar in an id lets one review be taken for two. */
  lemma BarsAlias(p: map<string, ReviewObligation>, q: map<string, ReviewObligation>)
    requires p.Keys == {"a|b"} && q.Keys == {"a", "b"}
    ensures ObligationsAnchor(p) == ObligationsAnchor(q) && p.Keys != q.Keys
  {
    OneListed("a|b");
    assert Leq("a", "b");
    TwoListed("a", "b");
    assert ["a", "b"][1..] == ["b"];
    assert "a" + "|" + "b" == "a|b";
  }
}
