/** Joining, sorting and numbering strings the way the commitment pre-image does. */
module Text {

  function Join(parts: seq<string>, separator: char): string {
    if |parts| == 0 then ""
    else if |parts| == 1 then parts[0]
    else parts[0] + [separator] + Join(parts[1..], separator)
  }

  function Decimal(n: nat): string {
    var digit := [(n % 10 + 48) as char];
    if n < 10 then digit else Decimal(n / 10) + digit
  }

  /** Code-unit order, the default order of Array.sort on strings. */
  predicate Before(a: string, b: string) {
    if |b| == 0 then false
    else if |a| == 0 then true
    else if a[0] != b[0] then a[0] < b[0]
    else Before(a[1..], b[1..])
  }

  function Insert(x: string, sorted: seq<string>): seq<string> {
    if |sorted| == 0 || !Before(sorted[0], x) then [x] + sorted
    else [sorted[0]] + Insert(x, sorted[1..])
  }

  function Sort(s: seq<string>): seq<string> {
    if |s| == 0 then [] else Insert(s[0], Sort(s[1..]))
  }

  /** The elements of s outside seen, first occurrences only. */
  function Distinct(s: seq<string>, seen: set<string>): seq<string> {
    if |s| == 0 then []
    else if s[0] in seen then Distinct(s[1..], seen)
    else [s[0]] + Distinct(s[1..], seen + {s[0]})
  }

  function Elements(s: seq<string>): set<string> {
    set x | x in s
  }

  ghost predicate Ascending(s: seq<string>) {
    forall i, j :: 0 <= i < j < |s| ==> Before(s[i], s[j])
  }

  lemma {:induction false} BeforeIsTotal(a: string, b: string)
    ensures Before(a, b) || a == b || Before(b, a)
    ensures !(Before(a, b) && Before(b, a)) && !Before(a, a)
  {
    if |a| > 0 && |b| > 0 && a[0] == b[0] {
      BeforeIsTotal(a[1..], b[1..]);
      assert a == [a[0]] + a[1..] && b == [b[0]] + b[1..];
    }
    if |a| > 0 { BeforeIsTotal(a[1..], a[1..]); }
  }

  lemma {:induction false} BeforeIsTransitive(a: string, b: string, c: string)
    requires Before(a, b) && Before(b, c)
    ensures Before(a, c)
  {
    if |a| > 0 && a[0] == b[0] && b[0] == c[0] {
      BeforeIsTransitive(a[1..], b[1..], c[1..]);
    }
  }

  lemma {:induction false} InsertKeepsOrder(x: string, s: seq<string>)
    requires Ascending(s) && x !in s
    ensures Ascending(Insert(x, s)) && Elements(Insert(x, s)) == Elements(s) + {x}
  {
    if |s| > 0 {
      BeforeIsTotal(s[0], x);
      if Before(s[0], x) {
        InsertKeepsOrder(x, s[1..]);
        var rest := Insert(x, s[1..]);
        forall j | 0 <= j < |rest| ensures Before(s[0], rest[j]) {
          assert rest[j] in Elements(rest);
          if rest[j] != x { assert rest[j] in s[1..]; }
        }
        assert Elements(Insert(x, s)) == Elements(rest) + {s[0]};
        assert Elements(s) == Elements(s[1..]) + {s[0]};
      } else {
        forall j | 0 <= j < |s| ensures Before(x, s[j]) {
          if j > 0 { BeforeIsTransitive(x, s[0], s[j]); }
        }
      }
    }
  }

  lemma {:induction false} DistinctElements(s: seq<string>, seen: set<string>)
    ensures Elements(Distinct(s, seen)) == Elements(s) - seen
    ensures forall i, j :: 0 <= i < j < |Distinct(s, seen)| ==> Distinct(s, seen)[i] != Distinct(s, seen)[j]
  {
    if |s| > 0 {
      var more := if s[0] in seen then seen else seen + {s[0]};
      DistinctElements(s[1..], more);
      assert Elements(s) == Elements(s[1..]) + {s[0]};
      if s[0] !in seen {
        var rest := Distinct(s[1..], more);
        assert Elements([s[0]] + rest) == Elements(rest) + {s[0]};
        assert s[0] !in Elements(rest);
      }
    }
  }

  lemma {:induction false} SortIsAscending(s: seq<string>)
    requires forall i, j :: 0 <= i < j < |s| ==> s[i] != s[j]
    ensures Ascending(Sort(s)) && Elements(Sort(s)) == Elements(s)
  {
    if |s| > 0 {
      SortIsAscending(s[1..]);
      assert s[0] !in s[1..];
      assert s[0] !in Elements(Sort(s[1..]));
      InsertKeepsOrder(s[0], Sort(s[1..]));
      assert Elements(s) == Elements(s[1..]) + {s[0]};
    }
  }

  lemma HeadIsLeast(s: seq<string>, x: string)
    requires Ascending(s) && x in s
    ensures x == s[0] || Before(s[0], x)
  {
    var i :| 0 <= i < |s| && s[i] == x;
  }

  lemma TailElements(s: seq<string>)
    requires Ascending(s) && |s| > 0
    ensures Ascending(s[1..]) && Elements(s[1..]) == Elements(s) - {s[0]}
  {
    BeforeIsTotal(s[0], s[0]);
    forall x ensures x in s[1..] <==> x in s && x != s[0] {
      if x in s[1..] {
        var i :| 0 <= i < |s[1..]| && s[1..][i] == x;
        assert s[i + 1] == x;
      }
    }
  }

  /** An ascending sequence is determined by its elements. */
  lemma {:induction false} AscendingIsUnique(s: seq<string>, t: seq<string>)
    requires Ascending(s) && Ascending(t) && Elements(s) == Elements(t)
    ensures s == t
    decreases |s|
  {
    assert forall x :: x in s <==> x in Elements(s);
    assert forall x :: x in t <==> x in Elements(t);
    assert |s| > 0 ==> s[0] in t;
    assert |t| > 0 ==> t[0] in s;
    if |s| > 0 {
      HeadIsLeast(s, t[0]);
      HeadIsLeast(t, s[0]);
      BeforeIsTotal(s[0], t[0]);
      TailElements(s);
      TailElements(t);
      AscendingIsUnique(s[1..], t[1..]);
      assert s == [s[0]] + s[1..] && t == [t[0]] + t[1..];
    }
  }

  lemma {:induction false} SplitIsUnique(x: string, u: string, y: string, v: string, separator: char)
    requires separator !in x && separator !in y
    requires x + [separator] + u == y + [separator] + v
    ensures x == y && u == v
  {
    var l, r := x + [separator] + u, y + [separator] + v;
    assert forall i :: 0 <= i < |x| ==> l[i] != separator;
    assert forall i :: 0 <= i < |y| ==> r[i] != separator;
    assert l[|x|] == separator && r[|y|] == separator;
    assert |x| == |y|;
    assert x == l[..|x|] && y == r[..|y|];
    assert u == l[|x| + 1..] && v == r[|y| + 1..];
  }

  lemma {:induction false} JoinIsInjective(a: seq<string>, b: seq<string>, separator: char)
    requires |a| == |b|
    requires forall p | p in a :: separator !in p
    requires forall p | p in b :: separator !in p
    requires Join(a, separator) == Join(b, separator)
    ensures a == b
  {
    if |a| > 1 {
      SplitIsUnique(a[0], Join(a[1..], separator), b[0], Join(b[1..], separator), separator);
      JoinIsInjective(a[1..], b[1..], separator);
      assert a == [a[0]] + a[1..] && b == [b[0]] + b[1..];
    }
  }

  predicate ArePlain(parts: seq<string>, separator: char) {
    forall i | 0 <= i < |parts| :: parts[i] != "" && separator !in parts[i]
  }

  /** A joined plain list is empty, one plain part, or contains the separator. */
  lemma JoinShape(parts: seq<string>, separator: char)
    requires ArePlain(parts, separator)
    ensures Join(parts, separator) == "" <==> |parts| == 0
    ensures separator in Join(parts, separator) <==> |parts| > 1
  {
    if |parts| > 1 {
      assert Join(parts, separator)[|parts[0]|] == separator;
    }
  }

  /** Nonempty separator-free parts are recovered from their join, whatever their number. */
  lemma {:induction false} ListIsRecovered(a: seq<string>, b: seq<string>, separator: char)
    requires ArePlain(a, separator) && ArePlain(b, separator)
    requires Join(a, separator) == Join(b, separator)
    ensures a == b
  {
    JoinShape(a, separator);
    JoinShape(b, separator);
    if |a| > 1 {
      SplitIsUnique(a[0], Join(a[1..], separator), b[0], Join(b[1..], separator), separator);
      ListIsRecovered(a[1..], b[1..], separator);
      assert a == [a[0]] + a[1..] && b == [b[0]] + b[1..];
    }
  }

  lemma {:induction false} DecimalDigits(n: nat)
    ensures |Decimal(n)| > 0
    ensures forall c | c in Decimal(n) :: '0' <= c <= '9'
  {
    if n >= 10 { DecimalDigits(n / 10); }
  }

  lemma {:induction false} DecimalIsInjective(m: nat, n: nat)
    requires Decimal(m) == Decimal(n)
    ensures m == n
  {
    var a, b := Decimal(m), Decimal(n);
    assert a[|a| - 1] == (m % 10 + 48) as char && b[|b| - 1] == (n % 10 + 48) as char;
    if m >= 10 { DecimalDigits(m / 10); }
    if n >= 10 { DecimalDigits(n / 10); }
    if m >= 10 && n >= 10 {
      assert Decimal(m / 10) == a[..|a| - 1] == b[..|b| - 1] == Decimal(n / 10);
      DecimalIsInjective(m / 10, n / 10);
    }
  }
}
