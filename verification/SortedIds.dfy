/** `normalizeIds`: the distinct ids in ascending order. */
module SortedIds {

  /** `sort()` compares UTF-16 units, so characters written as surrogates come before U+E000. */
  function Rank(c: char): int {
    var n := c as int;
    if 0xE000 <= n < 0x10000 then n + 0x110000 else n
  }

  /** Lexicographic order of strings, as `sort()` has it. */
  predicate Less(a: string, b: string) {
    if b == [] then false
    else if a == [] then true
    else Rank(a[0]) < Rank(b[0]) || (a[0] == b[0] && Less(a[1..], b[1..]))
  }

  lemma RankIsInjective(c: char, d: char)
    requires Rank(c) == Rank(d)
    ensures c == d
  {
    assert c as int == d as int;
    assert c == (c as int) as char;
  }

  lemma {:induction false} LessIsTotal(a: string, b: string)
    ensures Less(a, b) || Less(b, a) || a == b
    ensures !(Less(a, b) && Less(b, a)) && !Less(a, a)
  {
    if a != [] { LessIsTotal(a[1..], a[1..]); }
    if a != [] && b != [] && Rank(a[0]) == Rank(b[0]) {
      RankIsInjective(a[0], b[0]);
      LessIsTotal(a[1..], b[1..]);
      assert a == [a[0]] + a[1..] && b == [b[0]] + b[1..];
    }
  }

  lemma {:induction false} LessIsTransitive(a: string, b: string, c: string)
    requires Less(a, b) && Less(b, c)
    ensures Less(a, c)
  {
    if a != [] && a[0] == b[0] == c[0] { LessIsTransitive(a[1..], b[1..], c[1..]); }
  }

  // ---- the order of UTF-16 units ----

  function UnitsOf(c: char): seq<int> {
    var n := c as int;
    if n < 0x10000 then [n] else [0xD800 + (n - 0x10000) / 0x400, 0xDC00 + (n - 0x10000) % 0x400]
  }

  function Utf16(s: string): seq<int> { if s == [] then [] else UnitsOf(s[0]) + Utf16(s[1..]) }

  predicate UnitsLess(a: seq<int>, b: seq<int>) {
    if b == [] then false
    else if a == [] then true
    else a[0] < b[0] || (a[0] == b[0] && UnitsLess(a[1..], b[1..]))
  }

  lemma {:induction false} CommonUnits(p: seq<int>, a: seq<int>, b: seq<int>)
    ensures UnitsLess(p + a, p + b) <==> UnitsLess(a, b)
  {
    if p == [] {
      assert p + a == a && p + b == b;
    } else {
      CommonUnits(p[1..], a, b);
      assert (p + a)[1..] == p[1..] + a && (p + b)[1..] == p[1..] + b;
    }
  }

  lemma UnitsTellApart(c: char, d: char, a: seq<int>, b: seq<int>)
    requires c != d
    ensures UnitsLess(UnitsOf(c) + a, UnitsOf(d) + b) <==> Rank(c) < Rank(d)
  {
    var u, v := UnitsOf(c), UnitsOf(d);
    var x, y := u + a, v + b;
    assert x[0] == u[0] && y[0] == v[0];
    if u[0] == v[0] {
      assert x[1..][0] == u[1] && y[1..][0] == v[1];
    }
  }

  /** The order is that of the UTF-16 units, which is what `sort()` compares. */
  lemma {:induction false} LessIsUnitOrder(a: string, b: string)
    ensures Less(a, b) <==> UnitsLess(Utf16(a), Utf16(b))
  {
    hide UnitsOf, Rank;
    if a != [] && b != [] {
      if a[0] == b[0] {
        LessIsUnitOrder(a[1..], b[1..]);
        CommonUnits(UnitsOf(a[0]), Utf16(a[1..]), Utf16(b[1..]));
        assert Rank(a[0]) == Rank(b[0]);
      } else {
        UnitsTellApart(a[0], b[0], Utf16(a[1..]), Utf16(b[1..]));
      }
    } else {
      if b != [] { SomeUnits(b[0]); }
      if a != [] { SomeUnits(a[0]); }
    }
  }

  lemma SomeUnits(c: char)
    ensures UnitsOf(c) != []
  {
  }

  ghost predicate Ascending(s: seq<string>) { forall i, j :: 0 <= i < j < |s| ==> Less(s[i], s[j]) }

  function Insert(s: seq<string>, x: string): seq<string> {
    if s == [] then [x]
    else if s[0] == x then s
    else if Less(x, s[0]) then [x] + s
    else [s[0]] + Insert(s[1..], x)
  }

  function Normalize(ids: seq<string>): seq<string> {
    if ids == [] then [] else Insert(Normalize(ids[1..]), ids[0])
  }

  lemma {:induction false} InsertIsAscending(s: seq<string>, x: string)
    requires Ascending(s)
    ensures Ascending(Insert(s, x))
    ensures forall y :: y in Insert(s, x) <==> y in s || y == x
  {
    if s != [] && s[0] != x {
      LessIsTotal(x, s[0]);
      var rest := s[1..];
      if Less(x, s[0]) {
        forall j | 0 <= j < |s| ensures Less(x, s[j]) { if j > 0 { LessIsTransitive(x, s[0], s[j]); } }
      } else {
        InsertIsAscending(rest, x);
        var r := Insert(rest, x);
        forall j | 0 <= j < |r| ensures Less(s[0], r[j]) {
          assert r[j] in r;
          if r[j] != x {
            var k :| 0 <= k < |rest| && rest[k] == r[j];
            assert s[k + 1] == r[j];
          }
        }
      }
    }
  }

  /** The result is strictly ascending and holds exactly the given ids. */
  lemma {:induction false} NormalizeSorts(ids: seq<string>)
    ensures Ascending(Normalize(ids))
    ensures forall x :: x in Normalize(ids) <==> x in ids
  {
    if ids != [] {
      NormalizeSorts(ids[1..]);
      InsertIsAscending(Normalize(ids[1..]), ids[0]);
    }
  }

  /** There is only one ascending listing of a set of ids. */
  lemma {:induction false} AscendingIsUnique(a: seq<string>, b: seq<string>)
    requires Ascending(a) && Ascending(b) && forall x :: x in a <==> x in b
    ensures a == b
  {
    assert |b| > 0 ==> b[0] in b;
    if a != [] {
      assert a[0] in b;
      assert b[0] in a;
      HeadsAgree(a, b);
      var s, t := a[1..], b[1..];
      forall x ensures x in s <==> x in t {
        LessIsTotal(a[0], a[0]);
        if x in s { TailMember(a, x); }
        if x in t { TailMember(b, x); }
      }
      AscendingIsUnique(s, t);
    }
  }

  lemma TailMember(a: seq<string>, x: string)
    requires Ascending(a) && a != [] && x in a[1..]
    ensures x in a && x != a[0]
  {
    var i :| 0 <= i < |a[1..]| && a[1..][i] == x;
    assert Less(a[0], a[i + 1]);
    LessIsTotal(x, x);
  }

  lemma HeadsAgree(a: seq<string>, b: seq<string>)
    requires Ascending(a) && Ascending(b) && a != [] && b != [] && a[0] in b && b[0] in a
    ensures a[0] == b[0]
  {
    var i :| 0 <= i < |b| && b[i] == a[0];
    var j :| 0 <= j < |a| && a[j] == b[0];
    if i > 0 && j > 0 {
      assert Less(b[0], b[i]) && Less(a[0], a[j]);
      LessIsTotal(a[0], b[0]);
    }
  }

  /** Only the set of ids matters. */
  lemma NormalizeDependsOnSet(a: seq<string>, b: seq<string>)
    requires forall x :: x in a <==> x in b
    ensures Normalize(a) == Normalize(b)
  {
    NormalizeSorts(a);
    NormalizeSorts(b);
    AscendingIsUnique(Normalize(a), Normalize(b));
  }
}
