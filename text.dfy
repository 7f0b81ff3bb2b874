/**
 * The few pieces of Python string behaviour the training script relies on:
 * `str.split` with a one-character separator, `int()` on a decimal string,
 * `'{}'.format` of an integer, `'{:.5f}'.format` of a fixed-point value and
 * the code-point lexicographic order `<=` on strings.
 */
module Text {
  import opened Wrappers

  /** The position of the first `ch` in `s`: Python `s.index(ch)`. */
  function IndexOf(s: string, ch: char): (i: nat)
    requires ch in s
    ensures i < |s| && s[i] == ch && ch !in s[..i]
  {
    if s[0] == ch then 0
    else
      assert ch in s[1..] by { assert s == [s[0]] + s[1..]; }
      var j := IndexOf(s[1..], ch);
      assert s[..j + 1] == [s[0]] + s[1..][..j];
      j + 1
  }

  /** The first occurrence is the only position with no earlier occurrence. */
  lemma IndexOfUnique(s: string, ch: char, k: nat)
    requires k < |s| && s[k] == ch && ch !in s[..k]
    ensures IndexOf(s, ch) == k
  {
    var i := IndexOf(s, ch);
    forall j | 0 <= j < k ensures s[j] != ch {
      assert s[..k][j] == s[j];
    }
    forall j | 0 <= j < i ensures s[j] != ch {
      assert s[..i][j] == s[j];
    }
  }

  /** Python `s.split(sep)`: the pieces between occurrences of `sep`, in order. */
  function Split(s: string, sep: char): (r: seq<string>)
    ensures |r| >= 1 && (|r| == 1 <==> sep !in s)
    ensures forall k :: 0 <= k < |r| ==> sep !in r[k]
    decreases |s|
  {
    if sep !in s then [s]
    else
      var i := IndexOf(s, sep);
      [s[..i]] + Split(s[i + 1..], sep)
  }

  /** Python `sep.join(parts)`. */
  function Join(parts: seq<string>, sep: char): string
    decreases |parts|
  {
    if |parts| == 0 then ""
    else if |parts| == 1 then parts[0]
    else parts[0] + [sep] + Join(parts[1..], sep)
  }

  /** Splitting loses nothing: joining the pieces back gives the original string. */
  lemma {:induction false} SplitJoin(s: string, sep: char)
    ensures Join(Split(s, sep), sep) == s
    decreases |s|
  {
    if sep in s {
      var i := IndexOf(s, sep);
      var head, rest := s[..i], s[i + 1..];
      SplitJoin(rest, sep);
      SplitAt(s, sep, i);
      JoinCons(head, Split(rest, sep), sep);
      assert s == s[..i] + [s[i]] + s[i + 1..];
    }
  }

  lemma JoinCons(p: string, parts: seq<string>, sep: char)
    requires |parts| >= 1
    ensures Join([p] + parts, sep) == p + [sep] + Join(parts, sep)
  {
    assert ([p] + parts)[1..] == parts;
  }

  /** The first piece ends at the first separator. */
  lemma SplitAt(s: string, sep: char, k: nat)
    requires k < |s| && s[k] == sep && sep !in s[..k]
    ensures Split(s, sep) == [s[..k]] + Split(s[k + 1..], sep)
  {
    IndexOfUnique(s, sep, k);
  }

  /** Splitting distributes over a separator placed between two strings. */
  lemma {:induction false} SplitAround(a: string, b: string, sep: char)
    ensures Split(a + [sep] + b, sep) == Split(a, sep) + Split(b, sep)
    decreases |a|
  {
    if sep in a {
      var j := IndexOf(a, sep);
      var head, a' := a[..j], a[j + 1..];
      SplitAroundFirst(a, b, sep, j);
      SplitAround(a', b, sep);
      ConsAssoc(head, Split(a', sep), Split(b, sep));
    } else {
      SplitAroundLast(a, b, sep);
    }
  }

  /**
   * Regrouping a list of pieces. Stated apart so that `SplitAround` does not
   * search for it among its own sequence facts.
   */
  lemma ConsAssoc(head: string, x: seq<string>, y: seq<string>)
    ensures [head] + (x + y) == ([head] + x) + y
  {
  }

  /** With a separator inside `a`, both splits start with the piece before it. */
  lemma SplitAroundFirst(a: string, b: string, sep: char, j: nat)
    requires j < |a| && a[j] == sep && sep !in a[..j]
    ensures Split(a + [sep] + b, sep) == [a[..j]] + Split(a[j + 1..] + [sep] + b, sep)
    ensures Split(a, sep) == [a[..j]] + Split(a[j + 1..], sep)
  {
    var s := a + [sep] + b;
    assert s[..j] == a[..j] && s[j] == sep;
    assert s[j + 1..] == a[j + 1..] + [sep] + b;
    SplitAt(s, sep, j);
    SplitAt(a, sep, j);
  }

  /** With no separator inside `a`, `a` is the first piece. */
  lemma SplitAroundLast(a: string, b: string, sep: char)
    requires sep !in a
    ensures Split(a + [sep] + b, sep) == Split(a, sep) + Split(b, sep)
  {
    var s := a + [sep] + b;
    assert s[..|a|] == a && s[|a|] == sep && s[|a| + 1..] == b;
    SplitAt(s, sep, |a|);
    SplitNone(a, sep);
  }

  /** A string without the separator is a single piece. */
  lemma SplitNone(s: string, sep: char)
    requires sep !in s
    ensures Split(s, sep) == [s]
  {
  }

  /** The decimal digit character for `d`. */
  function Digit(d: nat): char
    requires d < 10
  {
    (48 + d) as char
  }

  predicate IsDigit(ch: char) {
    '0' <= ch <= '9'
  }

  /** `'{}'.format(n)` for a non-negative integer: decimal, no leading zeros. */
  function NatToString(n: nat): (r: string)
    ensures |r| > 0 && forall i :: 0 <= i < |r| ==> IsDigit(r[i])
  {
    if n < 10 then [Digit(n)] else NatToString(n / 10) + [Digit(n % 10)]
  }

  /** `'{}'.format(n)` for any integer. */
  function IntToString(n: int): (r: string)
    ensures |r| > 0
    ensures forall i :: 0 <= i < |r| ==> IsDigit(r[i]) || (i == 0 && r[i] == '-')
  {
    if n < 0 then "-" + NatToString(-n) else NatToString(n)
  }

  predicate IsDigits(s: string) {
    |s| > 0 && forall i :: 0 <= i < |s| ==> IsDigit(s[i])
  }

  /** The value of a string of decimal digits, most significant first. */
  function DigitsValue(s: string): nat
    requires forall i :: 0 <= i < |s| ==> IsDigit(s[i])
    decreases |s|
  {
    if |s| == 0 then 0
    else DigitsValue(s[..|s| - 1]) * 10 + DigitValue(s[|s| - 1])
  }

  function DigitValue(ch: char): nat
    requires IsDigit(ch)
  {
    ch as int - 48
  }

  /** Python `int(s)` on an optionally signed decimal literal; `None` is the ValueError. */
  function ParseInt(s: string): Option<int> {
    if |s| > 0 && (s[0] == '-' || s[0] == '+') then
      if IsDigits(s[1..]) then
        var v: int := DigitsValue(s[1..]);
        Some(if s[0] == '-' then -v else v)
      else None
    else if IsDigits(s) then Some(DigitsValue(s))
    else None
  }

  lemma {:induction false} NatToStringValue(n: nat)
    ensures DigitsValue(NatToString(n)) == n
  {
    if n >= 10 {
      var s := NatToString(n);
      NatToStringValue(n / 10);
      assert s[..|s| - 1] == NatToString(n / 10);
    }
  }

  /** `int('{}'.format(n)) == n`: printing an integer and parsing it back is the identity. */
  lemma IntRoundTrip(n: int)
    ensures ParseInt(IntToString(n)) == Some(n)
  {
    if n < 0 {
      var t := NatToString(-n);
      var s := IntToString(n);
      assert s[0] == '-' && s[1..] == t;
      assert IsDigits(t);
      NatToStringValue(-n);
    } else {
      var t := NatToString(n);
      assert IsDigit(t[0]) && IsDigits(t);
      NatToStringValue(n);
    }
  }

  function Pow10(k: nat): (p: nat)
    ensures p >= 1
  {
    if k == 0 then 1 else 10 * Pow10(k - 1)
  }

  /** `n` written with exactly `k` digits, zero-padded on the left. */
  function PadDigits(n: nat, k: nat): (r: string)
    requires n < Pow10(k)
    ensures |r| == k && forall i :: 0 <= i < k ==> IsDigit(r[i])
  {
    if k == 0 then ""
    else
      var p := Pow10(k - 1);
      DivBelow(n, p, 10);
      [Digit(n / p)] + PadDigits(n % p, k - 1)
  }

  /** `'{:.5f}'.format(e / 100000)` for a value held exactly in units of 10^-5. */
  function FixedPoint5(e: nat): string {
    NatToString(e / 100000) + "." + PadDigits(e % 100000, 5)
  }

  /** Python's `a <= b` on strings: code-point lexicographic order, a prefix first. */
  predicate LexLe(a: string, b: string)
    decreases |a|
  {
    if |a| == 0 then true
    else if |b| == 0 then false
    else if a[0] != b[0] then a[0] < b[0]
    else LexLe(a[1..], b[1..])
  }

  lemma {:induction false} LexLeTotal(a: string, b: string)
    ensures LexLe(a, b) || LexLe(b, a)
    decreases |a|
  {
    if |a| > 0 && |b| > 0 && a[0] == b[0] {
      LexLeTotal(a[1..], b[1..]);
    }
  }

  lemma {:induction false} LexLeTransitive(a: string, b: string, c: string)
    requires LexLe(a, b) && LexLe(b, c)
    ensures LexLe(a, c)
    decreases |a|
  {
    if |a| > 0 && |b| > 0 && |c| > 0 && a[0] == b[0] && b[0] == c[0] {
      LexLeTransitive(a[1..], b[1..], c[1..]);
    }
  }

  lemma {:induction false} LexLeAntisymmetric(a: string, b: string)
    requires LexLe(a, b) && LexLe(b, a)
    ensures a == b
    decreases |a|
  {
    if |a| > 0 {
      LexLeAntisymmetric(a[1..], b[1..]);
      assert a == [a[0]] + a[1..] && b == [b[0]] + b[1..];
    }
  }

  lemma DivBelow(n: nat, p: nat, d: nat)
    requires p > 0 && n < d * p
    ensures n / p < d
  {
  }

  lemma DivOrdered(n: nat, m: nat, p: nat)
    requires p > 0 && n / p < m / p
    ensures n < m
  {
    var q := n / p;
    assert n == q * p + n % p && n % p < p;
    assert m == (m / p) * p + m % p;
    assert (m / p) * p >= (q + 1) * p;
  }

  /** Comparing two numbers by their quotient first and their remainder second. */
  lemma LeadingOrder(n: nat, m: nat, p: nat)
    requires p > 0
    ensures n / p < m / p ==> n < m
    ensures n / p == m / p ==> (n <= m <==> n % p <= m % p)
  {
    if n / p < m / p {
      DivOrdered(n, m, p);
    }
    assert n == (n / p) * p + n % p;
    assert m == (m / p) * p + m % p;
  }

  lemma LexLeCons(c1: char, x: string, c2: char, y: string)
    ensures LexLe([c1] + x, [c2] + y) <==> if c1 != c2 then c1 < c2 else LexLe(x, y)
  {
    assert ([c1] + x)[1..] == x && ([c2] + y)[1..] == y;
  }

  /** The leading digit of a padded number and the padded remainder after it. */
  lemma PadDigitsHead(n: nat, k: nat) returns (c: char, rest: nat)
    requires 0 < k && n < Pow10(k)
    ensures rest < Pow10(k - 1) && rest == n % Pow10(k - 1)
    ensures c as int == 48 + n / Pow10(k - 1)
    ensures PadDigits(n, k) == [c] + PadDigits(rest, k - 1)
  {
    var p := Pow10(k - 1);
    DivBelow(n, p, 10);
    c, rest := Digit(n / p), n % p;
  }

  /**
   * Zero-padded numbers of one width compare as strings exactly as they
   * compare as numbers.
   */
  lemma {:induction false} PadDigitsOrder(n: nat, m: nat, k: nat)
    requires n < Pow10(k) && m < Pow10(k)
    ensures LexLe(PadDigits(n, k), PadDigits(m, k)) <==> n <= m
  {
    if k == 0 {
      assert n == 0 && m == 0;
    } else {
      var p := Pow10(k - 1);
      var cn, rn := PadDigitsHead(n, k);
      var cm, rm := PadDigitsHead(m, k);
      LexLeCons(cn, PadDigits(rn, k - 1), cm, PadDigits(rm, k - 1));
      LeadingOrder(n, m, p);
      LeadingOrder(m, n, p);
      if cn == cm {
        PadDigitsOrder(rn, rm, k - 1);
      }
    }
  }
}
