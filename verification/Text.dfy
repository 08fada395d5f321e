/** String order, string searching and sorted enumeration: the parts of Python's `str`, `sorted` and
    `ORDER BY` that several components rely on. */
module Text {

  datatype Option<+T> = None | Some(value: T)

  /** Python's Unicode whitespace: what `str.isspace` accepts, `str.strip` removes and `\S` refuses. */
  predicate Space(c: char) {
    || '\U{0009}' <= c <= '\U{000D}' || '\U{001C}' <= c <= '\U{0020}'
    || c == '\U{0085}' || c == '\U{00A0}' || c == '\U{1680}' || c == '\U{2028}' || c == '\U{2029}'
    || c == '\U{202F}' || c == '\U{205F}' || c == '\U{3000}'
    || '\U{2000}' <= c <= '\U{200A}'
  }

  /** The twenty-nine white space characters. */
  lemma SpacesAre(c: char)
    ensures Space(c) <==>
            c as int in {0x09, 0x0A, 0x0B, 0x0C, 0x0D, 0x1C, 0x1D, 0x1E, 0x1F, 0x20, 0x85, 0xA0, 0x1680, 0x2000, 0x2001, 0x2002, 0x2003,
                         0x2004, 0x2005, 0x2006, 0x2007, 0x2008, 0x2009, 0x200A, 0x2028, 0x2029, 0x202F, 0x205F, 0x3000}
  {
  }

  /** Python compares strings code point by code point. */
  predicate StrLe(a: string, b: string) {
    a == [] || (b != [] && (a[0] < b[0] || (a[0] == b[0] && StrLe(a[1..], b[1..]))))
  }

  lemma {:induction false} StrLeTotal(a: string, b: string)
    ensures StrLe(a, b) || StrLe(b, a)
  {
    if a != [] && b != [] && a[0] == b[0] {
      StrLeTotal(a[1..], b[1..]);
    }
  }

  lemma {:induction false} StrLeAntisymmetric(a: string, b: string)
    requires StrLe(a, b) && StrLe(b, a)
    ensures a == b
  {
    if a != [] {
      StrLeAntisymmetric(a[1..], b[1..]);
      assert a == [a[0]] + a[1..] && b == [b[0]] + b[1..];
    }
  }

  lemma {:induction false} StrLeTransitive(a: string, b: string, c: string)
    requires StrLe(a, b) && StrLe(b, c)
    ensures StrLe(a, c)
  {
    if a != [] && a[0] == b[0] && b[0] == c[0] {
      StrLeTransitive(a[1..], b[1..], c[1..]);
    }
  }

  predicate IsLeast(m: string, s: set<string>) {
    m in s && forall x :: x in s ==> StrLe(m, x)
  }

  lemma {:induction false} LeastExists(s: set<string>)
    requires s != {}
    ensures exists m :: IsLeast(m, s)
  {
    var x :| x in s;
    StrLeTotal(x, x);
    var rest := s - {x};
    if rest == {} {
      assert s == {x};
      assert IsLeast(x, s);
    } else {
      LeastExists(rest);
      var m :| IsLeast(m, rest);
      StrLeTotal(m, x);
      if StrLe(m, x) {
        assert IsLeast(m, s);
      } else {
        forall y | y in s ensures StrLe(x, y) {
          if y != x { StrLeTransitive(x, m, y); }
        }
        assert IsLeast(x, s);
      }
    }
  }

  function Least(s: set<string>): (m: string)
    requires s != {}
    ensures IsLeast(m, s)
  {
    LeastExists(s);
    assert forall a, b :: IsLeast(a, s) && IsLeast(b, s) ==> a == b by {
      forall a, b | IsLeast(a, s) && IsLeast(b, s) ensures a == b { StrLeAntisymmetric(a, b); }
    }
    var m :| m in s && IsLeast(m, s);
    m
  }

  /** Strictly increasing, so without repetitions. */
  ghost predicate Ascending(xs: seq<string>) {
    forall i, j :: 0 <= i < j < |xs| ==> StrLe(xs[i], xs[j]) && xs[i] != xs[j]
  }

  /** `sorted(s)` of a set of strings. */
  function SortedSet(s: set<string>): (xs: seq<string>)
    ensures forall x :: x in xs <==> x in s
    ensures |xs| == |s|
    decreases |s|
  {
    if s == {} then [] else
      var m := Least(s);
      [m] + SortedSet(s - {m})
  }

  lemma AscendingCons(m: string, rest: seq<string>)
    requires Ascending(rest) && forall i :: 0 <= i < |rest| ==> StrLe(m, rest[i]) && m != rest[i]
    ensures Ascending([m] + rest)
  {
  }

  lemma {:induction false} SortedSetAscends(s: set<string>)
    ensures Ascending(SortedSet(s))
    decreases |s|
  {
    if s != {} {
      var m := Least(s);
      var rest := SortedSet(s - {m});
      SortedSetAscends(s - {m});
      forall i | 0 <= i < |rest| ensures StrLe(m, rest[i]) && m != rest[i] {
        assert rest[i] in rest && rest[i] in s - {m};
      }
      AscendingCons(m, rest);
    }
  }

  /** A set has one ascending enumeration. */
  lemma {:induction false} AscendingUnique(xs: seq<string>, ys: seq<string>)
    requires Ascending(xs) && Ascending(ys)
    requires forall x :: x in xs <==> x in ys
    ensures xs == ys
  {
    assert xs == [] || xs[0] in xs;
    assert ys == [] || ys[0] in ys;
    if xs != [] {
      StrLeTotal(xs[0], xs[0]);
      StrLeTotal(ys[0], ys[0]);
      assert StrLe(xs[0], ys[0]) && StrLe(ys[0], xs[0]);
      StrLeAntisymmetric(xs[0], ys[0]);
      assert forall x :: x in xs[1..] <==> x in ys[1..] by {
        forall x ensures x in xs[1..] <==> x in ys[1..] {
          assert x in xs <==> x == xs[0] || x in xs[1..];
          assert x in ys <==> x == ys[0] || x in ys[1..];
        }
      }
      AscendingUnique(xs[1..], ys[1..]);
      assert xs == [xs[0]] + xs[1..] && ys == [ys[0]] + ys[1..];
    }
  }

  function StripLeft(s: string): (r: string)
    ensures |r| <= |s|
    ensures r != "" ==> !Space(r[0])
  {
    if s != "" && Space(s[0]) then StripLeft(s[1..]) else s
  }

  /** Only white space goes. */
  lemma {:induction false} StripLeftSuffix(s: string)
    ensures StripLeft(s) == s[|s| - |StripLeft(s)|..]
    ensures forall i :: 0 <= i < |s| - |StripLeft(s)| ==> Space(s[i])
  {
    if s != "" && Space(s[0]) {
      StripLeftSuffix(s[1..]);
      assert s == [s[0]] + s[1..];
    }
  }

  function StripRight(s: string): (r: string)
    ensures r <= s
    ensures r != "" ==> !Space(r[|r| - 1])
  {
    if s != "" && Space(s[|s| - 1]) then StripRight(s[..|s| - 1]) else s
  }

  /** `s.strip()` */
  function Strip(s: string): (r: string)
    ensures |r| <= |s|
    ensures r != "" ==> !Space(r[0]) && !Space(r[|r| - 1])
  {
    StripRight(StripLeft(s))
  }

  /** `str(n)` */
  function Decimal(n: nat): string {
    if n < 10 then [('0' as int + n) as char] else Decimal(n / 10) + [('0' as int + n % 10) as char]
  }

  function NumberOf(digits: string): int {
    if digits == "" then 0 else 10 * NumberOf(digits[..|digits| - 1]) + (digits[|digits| - 1] as int - '0' as int)
  }

  /** A number is written in digits, without a leading zero of its own, and reads back as it was. */
  lemma {:induction false} DecimalReads(n: nat)
    ensures NumberOf(Decimal(n)) == n
    ensures Decimal(n) != "" && forall i :: 0 <= i < |Decimal(n)| ==> '0' <= Decimal(n)[i] <= '9'
    ensures Decimal(n)[0] == '0' ==> n == 0
  {
    if n < 10 {
      assert Decimal(n)[..0] == "";
    } else {
      DecimalReads(n / 10);
      assert Decimal(n)[..|Decimal(n)| - 1] == Decimal(n / 10);
    }
  }
}
