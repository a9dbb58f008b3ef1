/**
 * Go strings as the model sees them. A Go `string` is a sequence of bytes, so a
 * GoString is a sequence of characters whose code points are below 256, one per byte.
 * The module holds the few byte-string operations the program relies on: digits,
 * Go's byte-wise string order and the sorted listing of a set of keys built on it,
 * joining with a separator, and `strings.Cut` with the splitting loop built on it.
 */
module GoStrings {

  type Byte = c: char | c as int < 256

  type GoString = seq<Byte>

  predicate IsDigit(c: Byte) {
    '0' <= c <= '9'
  }

  function DigitValue(c: Byte): (d: nat)
    requires IsDigit(c)
    ensures d < 10
  {
    c as int - '0' as int
  }

  function DigitChar(d: nat): (c: Byte)
    requires d < 10
    ensures IsDigit(c) && DigitValue(c) == d
  {
    (d + '0' as int) as char
  }

  // ---------------------------------------------------------------------------
  // Go's order on strings: byte by byte, a proper prefix first.

  predicate LessEq(a: GoString, b: GoString)
    decreases |a|
  {
    a == [] || (b != [] && (a[0] < b[0] || (a[0] == b[0] && LessEq(a[1..], b[1..]))))
  }

  lemma {:induction false} LessEqReflexive(a: GoString)
    ensures LessEq(a, a)
    decreases |a|
  {
    if a != [] {
      LessEqReflexive(a[1..]);
    }
  }

  lemma {:induction false} LessEqAntisymmetric(a: GoString, b: GoString)
    requires LessEq(a, b) && LessEq(b, a)
    ensures a == b
    decreases |a|
  {
    if a != [] {
      LessEqAntisymmetric(a[1..], b[1..]);
      assert a == [a[0]] + a[1..] && b == [b[0]] + b[1..];
    }
  }

  lemma {:induction false} LessEqTransitive(a: GoString, b: GoString, c: GoString)
    requires LessEq(a, b) && LessEq(b, c)
    ensures LessEq(a, c)
    decreases |a|
  {
    if a != [] && a[0] == b[0] && b[0] == c[0] {
      LessEqTransitive(a[1..], b[1..], c[1..]);
    }
  }

  lemma {:induction false} LessEqTotal(a: GoString, b: GoString)
    ensures LessEq(a, b) || LessEq(b, a)
    decreases |a|
  {
    if a != [] && b != [] && a[0] == b[0] {
      LessEqTotal(a[1..], b[1..]);
    }
  }

  lemma LessEqAntisymmetricAll()
    ensures forall a, b :: LessEq(a, b) && LessEq(b, a) ==> a == b
  {
    forall a, b | LessEq(a, b) && LessEq(b, a) ensures a == b {
      LessEqAntisymmetric(a, b);
    }
  }

  /** Every non-empty finite set of strings has a least element. */
  lemma {:induction false} LeastExists(s: set<GoString>)
    requires s != {}
    ensures exists m :: m in s && forall x :: x in s ==> LessEq(m, x)
    decreases |s|
  {
    var y :| y in s;
    if s == {y} {
      LessEqReflexive(y);
      assert forall x :: x in s ==> LessEq(y, x);
    } else {
      LeastExists(s - {y});
      var m :| m in s - {y} && forall x :: x in s - {y} ==> LessEq(m, x);
      if LessEq(m, y) {
        assert forall x :: x in s ==> LessEq(m, x);
      } else {
        LessEqTotal(m, y);
        forall x | x in s
          ensures LessEq(y, x)
        {
          if x == y {
            LessEqReflexive(y);
          } else {
            LessEqTransitive(y, m, x);
          }
        }
      }
    }
  }

  function Least(s: set<GoString>): (m: GoString)
    requires s != {}
    ensures m in s
    ensures forall x :: x in s ==> LessEq(m, x)
  {
    LeastExists(s);
    LessEqAntisymmetricAll();
    var m :| m in s && forall x :: x in s ==> LessEq(m, x);
    m
  }

  predicate StrictlySorted(r: seq<GoString>) {
    forall i, j :: 0 <= i < j < |r| ==> LessEq(r[i], r[j]) && r[i] != r[j]
  }

  /** The elements of `s` in ascending order: what `slices.Sort` makes of the keys of a Go map. */
  function SortedList(s: set<GoString>): (r: seq<GoString>)
    ensures |r| == |s|
    ensures forall x :: x in r <==> x in s
    ensures StrictlySorted(r)
    decreases |s|
  {
    if s == {} then []
    else
      var m := Least(s);
      [m] + SortedList(s - {m})
  }

  /** A strictly sorted listing of a set is the one SortedList gives. */
  lemma {:induction false} SortedListUnique(r: seq<GoString>, s: set<GoString>)
    requires StrictlySorted(r)
    requires forall x :: x in r <==> x in s
    ensures r == SortedList(s)
    decreases |r|
  {
    if r == [] {
      assert s == {} by {
        if x :| x in s {
          assert false;
        }
      }
    } else {
      assert r[0] in s;
      var m := Least(s);
      assert m in r;
      var k :| 0 <= k < |r| && r[k] == m;
      if k != 0 {
        LessEqAntisymmetric(r[0], m);
      }
      assert r[0] == m;
      forall x
        ensures x in r[1..] <==> x in s - {m}
      {
        if x in r[1..] {
          var i :| 0 <= i < |r[1..]| && r[1..][i] == x;
          assert r[i + 1] == x;
        }
        if x in s - {m} {
          var i :| 0 <= i < |r| && r[i] == x;
          assert i != 0;
          assert r[1..][i - 1] == x;
        }
      }
      SortedListUnique(r[1..], s - {m});
      assert r == [r[0]] + r[1..];
    }
  }

  // ---------------------------------------------------------------------------
  // Rearranging lists. Stated for any element type, where they are cheap to prove.
  // Callers on byte strings use them so that the solver need not compare the
  // contents of the strings element by element.

  /** Concatenation regrouped to the right. */
  lemma ConcatAssoc<T>(a: seq<T>, b: seq<T>, c: seq<T>)
    ensures a + b + c == a + (b + c)
  {
  }

  /** Five concatenated lists, with the last three grouped. */
  lemma Regroup<T>(k: seq<T>, e: seq<T>, a: seq<T>, b: seq<T>, c: seq<T>)
    ensures (k + e + a) + (b + c) == k + e + (a + b + c)
  {
  }

  /** A four-element list with its first element replaced. */
  lemma ReplaceFirst<T>(g: T, b: seq<T>)
    requires |b| == 4
    ensures [g] + b[1..] == [g, b[1], b[2], b[3]]
  {
  }

  // ---------------------------------------------------------------------------
  // Joining and splitting on a one-byte separator.

  /** `strings.Join` with a one-byte separator. */
  function Join(sep: Byte, parts: seq<GoString>): GoString
    decreases |parts|
  {
    if |parts| == 0 then []
    else if |parts| == 1 then parts[0]
    else parts[0] + [sep] + Join(sep, parts[1..])
  }

  /** Two joined lists written one after the other: the last part of the first runs into the first part of the second. */
  lemma {:induction false} JoinGlue(sep: Byte, init: seq<GoString>, last: GoString, b: seq<GoString>)
    requires b != []
    ensures Join(sep, init + [last]) + Join(sep, b) == Join(sep, init + [last + b[0]] + b[1..])
    decreases |init|
  {
    var w := init + [last + b[0]] + b[1..];
    if init == [] {
      assert init + [last] == [last];
      assert w == [last + b[0]] + b[1..];
      if |b| > 1 {
        assert w[0] == last + b[0] && w[1..] == b[1..];
      }
    } else {
      JoinGlue(sep, init[1..], last, b);
      var x := init + [last];
      assert x[0] == init[0] && x[1..] == init[1..] + [last];
      assert w[0] == init[0] && w[1..] == init[1..] + [last + b[0]] + b[1..];
    }
  }

  /**
   * `strings.Cut` with a one-byte separator: the text before the first `sep`,
   * the text after it, and whether `sep` occurs at all.
   */
  function Cut(s: GoString, sep: Byte): (r: (GoString, GoString, bool))
    ensures sep !in r.0
    ensures r.2 ==> s == r.0 + [sep] + r.1
    ensures !r.2 ==> r.0 == s && r.1 == []
    decreases |s|
  {
    if s == [] then ([], [], false)
    else if s[0] == sep then ([], s[1..], true)
    else
      var (before, after, found) := Cut(s[1..], sep);
      ([s[0]] + before, after, found)
  }

  lemma {:induction false} CutAtFirst(a: GoString, sep: Byte, b: GoString)
    requires sep !in a
    ensures Cut(a + [sep] + b, sep) == (a, b, true)
    decreases |a|
  {
    if a != [] {
      assert a[0] != sep && sep !in a[1..] by {
        assert a == [a[0]] + a[1..];
      }
      CutAtFirst(a[1..], sep, b);
      assert (a + [sep] + b)[1..] == a[1..] + [sep] + b;
      assert a == [a[0]] + a[1..];
    }
  }

  lemma CutAbsent(a: GoString, sep: Byte)
    requires sep !in a
    ensures Cut(a, sep) == (a, [], false)
  {
  }

  /**
   * The pieces a Go loop `for s != "" { piece, s, _ = strings.Cut(s, sep); ... }`
   * visits, in order.
   */
  function Split(s: GoString, sep: Byte): seq<GoString>
    decreases |s|
  {
    if s == [] then []
    else
      var (before, after, _) := Cut(s, sep);
      [before] + Split(after, sep)
  }

  /** Splitting undoes joining when every part is non-empty and free of the separator. */
  lemma {:induction false} SplitJoin(sep: Byte, parts: seq<GoString>)
    requires forall i :: 0 <= i < |parts| ==> parts[i] != [] && sep !in parts[i]
    ensures Split(Join(sep, parts), sep) == parts
    decreases |parts|
  {
    if |parts| == 1 {
      CutAbsent(parts[0], sep);
    } else if |parts| > 1 {
      CutAtFirst(parts[0], sep, Join(sep, parts[1..]));
      SplitJoin(sep, parts[1..]);
      assert parts == [parts[0]] + parts[1..];
    }
  }
}
