/** Text helpers that the program gets from Rust's standard library:
    `join`, splitting, decimal formatting with `{}`, and the ordering of
    `String` that `sorted()` uses. */
module Strings {

  /** `xs.join(sep)`. */
  function Join(xs: seq<string>, sep: string): string
    decreases |xs|
  {
    if |xs| == 0 then ""
    else if |xs| == 1 then xs[0]
    else xs[0] + sep + Join(xs[1..], sep)
  }

  lemma Assoc(a: string, b: string, c: string)
    ensures a + b + c == a + (b + c)
  {
  }

  lemma JoinCons(x: string, xs: seq<string>, sep: string)
    requires |xs| >= 1
    ensures Join([x] + xs, sep) == x + sep + Join(xs, sep)
  {
    assert ([x] + xs)[1..] == xs;
  }

  lemma JoinOfThree(a: string, b: string, c: string, sep: string)
    ensures Join([a, b, c], sep) == a + sep + b + sep + c
  {
    assert [a, b, c][1..] == [b, c];
    assert [b, c][1..] == [c];
    assert Join([b, c], sep) == b + sep + c;
    Assoc(a + sep, b + sep, c);
    Assoc(a + sep, b, sep);
  }

  /** Three leading pieces joined in front of more. */
  lemma JoinThreeThen(a: string, b: string, c: string, xs: seq<string>, sep: string)
    requires |xs| >= 1
    ensures Join([a, b, c] + xs, sep) == a + sep + b + sep + c + sep + Join(xs, sep)
  {
    assert [a, b, c] + xs == [a] + ([b, c] + xs);
    assert [b, c] + xs == [b] + ([c] + xs);
    JoinCons(a, [b, c] + xs, sep);
    JoinCons(b, [c] + xs, sep);
    JoinCons(c, xs, sep);
  }

  /** `s.split(c)` collected: the pieces between occurrences of `c`;
      there is always at least one piece. */
  function Split(s: string, c: char): (r: seq<string>)
    ensures |r| >= 1
    decreases |s|
  {
    if |s| == 0 then [""]
    else
      var rest := Split(s[1..], c);
      if s[0] == c then [""] + rest
      else [[s[0]] + rest[0]] + rest[1..]
  }

  lemma {:induction false} SplitAfterPiece(x: string, c: char, tail: string)
    requires c !in x
    ensures Split(x + [c] + tail, c) == [x] + Split(tail, c)
    decreases |x|
  {
    if |x| == 0 {
      assert x + [c] + tail == [c] + tail;
      assert ([c] + tail)[1..] == tail;
    } else {
      SplitAfterPiece(x[1..], c, tail);
      assert (x + [c] + tail)[1..] == x[1..] + [c] + tail;
      assert [x[0]] + x[1..] == x;
    }
  }

  lemma {:induction false} SplitOfPiece(x: string, c: char)
    requires c !in x
    ensures Split(x, c) == [x]
    decreases |x|
  {
    if |x| > 0 {
      SplitOfPiece(x[1..], c);
      assert [x[0]] + x[1..] == x;
    }
  }

  /** Splitting joined pieces at a separator none of them contains gives
      the pieces back. */
  lemma {:induction false} SplitJoin(xs: seq<string>, c: char)
    requires |xs| >= 1
    requires forall i :: 0 <= i < |xs| ==> c !in xs[i]
    ensures Split(Join(xs, [c]), c) == xs
    decreases |xs|
  {
    if |xs| == 1 {
      SplitOfPiece(xs[0], c);
    } else {
      SplitJoin(xs[1..], c);
      SplitAfterPiece(xs[0], c, Join(xs[1..], [c]));
      assert [xs[0]] + xs[1..] == xs;
    }
  }

  predicate IsDigit(ch: char) {
    '0' <= ch <= '9'
  }

  function DigitChar(d: nat): (ch: char)
    requires d < 10
    ensures IsDigit(ch) && ch as int - '0' as int == d
  {
    ('0' as int + d) as char
  }

  /** `format!("{}", n)` for an unsigned integer: decimal digits with no
      leading zero. */
  function NatToString(n: nat): (r: string)
    ensures |r| >= 1
    ensures forall i :: 0 <= i < |r| ==> IsDigit(r[i])
    ensures r[0] == '0' ==> n == 0 && |r| == 1
    decreases n
  {
    if n < 10 then [DigitChar(n)] else NatToString(n / 10) + [DigitChar(n % 10)]
  }

  /** A non-empty run of decimal digits. */
  predicate IsNumeral(s: string) {
    |s| >= 1 && forall i :: 0 <= i < |s| ==> IsDigit(s[i])
  }

  /** The value of a string of decimal digits. */
  function ParseNat(s: string): nat
    requires forall i :: 0 <= i < |s| ==> IsDigit(s[i])
    decreases |s|
  {
    if |s| == 0 then 0
    else
      assert IsDigit(s[|s| - 1]);
      ParseNat(s[..|s| - 1]) * 10 + (s[|s| - 1] as int - '0' as int)
  }

  /** Reading back the decimal text of `n` gives `n`: the text determines
      the number. */
  lemma {:induction false} ParseNatToString(n: nat)
    ensures ParseNat(NatToString(n)) == n
    decreases n
  {
    var r := NatToString(n);
    if n >= 10 {
      ParseNatToString(n / 10);
      assert r[..|r| - 1] == NatToString(n / 10);
    }
  }

  lemma NatToStringInjective(a: nat, b: nat)
    requires NatToString(a) == NatToString(b)
    ensures a == b
  {
    ParseNatToString(a);
    ParseNatToString(b);
  }

  /** `format!("{}", i)` for a signed integer. */
  function IntToString(i: int): (r: string)
    ensures |r| >= 1
    ensures r[0] == '-' <==> i < 0
    ensures i >= 0 ==> r == NatToString(i)
    ensures i < 0 ==> r[1..] == NatToString(-i)
  {
    if i < 0 then "-" + NatToString(-i) else NatToString(i)
  }

  /** The strict order of `String`: lexicographic by character (the order
      of UTF-8 bytes and of code points agree). */
  predicate Below(a: string, b: string)
    decreases |a|
  {
    |b| > 0 && (|a| == 0 || a[0] < b[0] || (a[0] == b[0] && Below(a[1..], b[1..])))
  }

  lemma {:induction false} BelowIrreflexive(a: string)
    ensures !Below(a, a)
    decreases |a|
  {
    if |a| > 0 { BelowIrreflexive(a[1..]); }
  }

  lemma {:induction false} BelowAsymmetric(a: string, b: string)
    requires Below(a, b)
    ensures !Below(b, a)
    decreases |a|
  {
    if |a| > 0 && a[0] == b[0] { BelowAsymmetric(a[1..], b[1..]); }
  }

  lemma {:induction false} BelowTransitive(a: string, b: string, c: string)
    requires Below(a, b) && Below(b, c)
    ensures Below(a, c)
    decreases |a|
  {
    if |a| > 0 && a[0] == b[0] && b[0] == c[0] {
      BelowTransitive(a[1..], b[1..], c[1..]);
    }
  }

  lemma {:induction false} BelowTotal(a: string, b: string)
    requires a != b
    ensures Below(a, b) || Below(b, a)
    decreases |a|
  {
    if |a| > 0 && |b| > 0 && a[0] == b[0] {
      assert a == [a[0]] + a[1..] && b == [b[0]] + b[1..];
      BelowTotal(a[1..], b[1..]);
    }
  }

  predicate Increasing(r: seq<string>) {
    forall i, j {:trigger Below(r[i], r[j])} :: 0 <= i < j < |r| ==> Below(r[i], r[j])
  }

  /** Three names in order, sorted. */
  lemma SortedThree(s: set<string>, a: string, b: string, c: string)
    requires s == {a, b, c} && Below(a, b) && Below(b, c)
    ensures SortedKeys(s) == [a, b, c]
  {
    BelowTransitive(a, b, c);
    var r := [a, b, c];
    assert Increasing(r) by {
      forall i, j | 0 <= i < j < |r| ensures Below(r[i], r[j]) {
      }
    }
    SortedKeysUnique(s, r);
  }

  predicate IsLeast(m: string, s: set<string>) {
    m in s && forall y :: y in s && y != m ==> Below(m, y)
  }

  lemma {:induction false} LeastExists(s: set<string>)
    requires s != {}
    ensures exists m :: IsLeast(m, s)
    decreases |s|
  {
    var x :| x in s;
    if s != {x} {
      var rest := s - {x};
      LeastExists(rest);
      var m :| IsLeast(m, rest);
      if Below(m, x) {
        forall y | y in s && y != m ensures Below(m, y) {
          if y == x {
          } else {
            assert y in rest;
          }
        }
        assert IsLeast(m, s);
      } else {
        BelowTotal(m, x);
        forall y | y in s && y != x ensures Below(x, y) {
          if y != m { BelowTransitive(x, m, y); }
        }
        assert IsLeast(x, s);
      }
    } else {
      assert IsLeast(x, s);
    }
  }

  lemma LeastUnique(s: set<string>)
    ensures forall m1, m2 :: IsLeast(m1, s) && IsLeast(m2, s) ==> m1 == m2
  {
    forall m1, m2 | IsLeast(m1, s) && IsLeast(m2, s) ensures m1 == m2 {
      if m1 != m2 { BelowAsymmetric(m1, m2); }
    }
  }

  /** `set.iter().sorted()`: the elements of `s` in increasing order. */
  function SortedKeys(s: set<string>): (r: seq<string>)
    ensures |r| == |s|
    decreases |s|
  {
    if s == {} then []
    else
      LeastExists(s);
      LeastUnique(s);
      var m :| IsLeast(m, s);
      [m] + SortedKeys(s - {m})
  }

  /** The sorted listing holds exactly the elements of the set, in
      increasing order. */
  lemma {:induction false} SortedKeysSpec(s: set<string>)
    ensures forall x :: x in SortedKeys(s) <==> x in s
    ensures Increasing(SortedKeys(s))
    decreases |s|
  {
    if s != {} {
      LeastExists(s);
      LeastUnique(s);
      var m :| IsLeast(m, s);
      var rest := SortedKeys(s - {m});
      var r := SortedKeys(s);
      assert r == [m] + rest;
      SortedKeysSpec(s - {m});
      forall i, j | 0 <= i < j < |r| ensures Below(r[i], r[j]) {
        assert r[j] == rest[j - 1];
        if i == 0 {
          assert r[j] in s - {m};
        } else {
          assert r[i] == rest[i - 1];
        }
      }
    }
  }

  lemma HeadIsMember(r: seq<string>)
    requires r != []
    ensures r[0] in r
  {
  }

  /** An increasing listing of `s` is the sorted listing: sorting has one
      answer. */
  lemma {:induction false} SortedKeysUnique(s: set<string>, r: seq<string>)
    requires Increasing(r)
    requires forall x :: x in r <==> x in s
    ensures r == SortedKeys(s)
    decreases |s|
  {
    SortedKeysSpec(s);
    if s == {} {
      if r != [] {
        HeadIsMember(r);
        assert false;
      }
    } else {
      var t := SortedKeys(s);
      assert |r| > 0 by { var x :| x in s; assert x in r; }
      assert IsLeast(r[0], s) by {
        forall y | y in s && y != r[0] ensures Below(r[0], y) {
          var k :| 0 <= k < |r| && r[k] == y;
          assert k != 0;
        }
      }
      LeastUnique(s);
      assert IsLeast(t[0], s) by {
        forall y | y in s && y != t[0] ensures Below(t[0], y) {
          var k :| 0 <= k < |t| && t[k] == y;
          assert k != 0;
        }
      }
      assert r[0] == t[0];
      var m := r[0];
      forall x ensures x in r[1..] <==> x in s - {m} {
        if x in r[1..] {
          var k :| 1 <= k < |r| && r[k] == x;
          assert Below(r[0], r[k]);
          BelowIrreflexive(m);
        }
        if x in s - {m} {
          var k :| 0 <= k < |r| && r[k] == x;
          assert k != 0;
          assert r[k] == r[1..][k - 1];
        }
      }
      SortedKeysUnique(s - {m}, r[1..]);
      assert t == [m] + SortedKeys(s - {m});
      assert r == [r[0]] + r[1..];
    }
  }

  lemma SortedKeysDistinct(s: set<string>, i: nat, j: nat)
    requires i < j < |SortedKeys(s)|
    ensures SortedKeys(s)[i] != SortedKeys(s)[j]
  {
    SortedKeysSpec(s);
    BelowIrreflexive(SortedKeys(s)[i]);
  }
}
