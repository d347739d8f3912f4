/**
 * Character-level helpers shared by the formatters and parsers: decimal
 * digits, zero-padded decimal rendering, and searching a string for a
 * separator character.
 */
module Text {
  import opened Wrappers

  predicate IsDigit(c: char) {
    '0' <= c <= '9'
  }

  predicate AllDigits(s: string) {
    forall i :: 0 <= i < |s| ==> IsDigit(s[i])
  }

  function Digit(n: nat): (c: char)
    requires n < 10
    ensures IsDigit(c) && DigitValue(c) == n
  {
    ('0' as int + n) as char
  }

  function DigitValue(c: char): nat
    requires IsDigit(c)
  {
    c as int - '0' as int
  }

  function Pow10(k: nat): (p: nat)
    ensures p >= 1
  {
    if k == 0 then 1 else 10 * Pow10(k - 1)
  }

  /**
   * The decimal digits of `n`, padded on the left with '0' to at least
   * `width` characters. `Decimal(n, 1)` is the plain decimal form of `n`.
   */
  function Decimal(n: nat, width: nat): (s: string)
    ensures |s| >= 1 && |s| >= width
    decreases n + width
  {
    if n < 10 && width <= 1 then [Digit(n)]
    else Decimal(n / 10, if width == 0 then 0 else width - 1) + [Digit(n % 10)]
  }

  /**
   * The number a string of decimal digits denotes (leading zeros allowed,
   * the empty string denoting 0), or None if some character is not a digit.
   */
  function ParseDigits(s: string): Option<nat> {
    if |s| == 0 then Some(0)
    else if !IsDigit(s[|s| - 1]) then None
    else match ParseDigits(s[..|s| - 1])
      case None => None
      case Some(v) => Some(v * 10 + DigitValue(s[|s| - 1]))
  }

  /** Exactly the strings made of digits are accepted. */
  lemma {:induction false} ParseDigitsAccepts(s: string)
    ensures ParseDigits(s).Some? <==> AllDigits(s)
  {
    if |s| > 0 {
      var front := s[..|s| - 1];
      ParseDigitsAccepts(front);
      assert AllDigits(s) <==> AllDigits(front) && IsDigit(s[|s| - 1]) by {
        assert forall i :: 0 <= i < |front| ==> front[i] == s[i];
      }
    }
  }

  lemma {:induction false} DecimalDigits(n: nat, width: nat)
    ensures AllDigits(Decimal(n, width))
    decreases n + width
  {
    if !(n < 10 && width <= 1) {
      DecimalDigits(n / 10, if width == 0 then 0 else width - 1);
    }
  }

  /** A number below 10^width takes exactly `width` padded digits. */
  lemma {:induction false} DecimalLength(n: nat, width: nat)
    requires 1 <= width && n < Pow10(width)
    ensures |Decimal(n, width)| == width
    decreases width
  {
    if n < 10 && width <= 1 {
    } else {
      DecimalLength(n / 10, width - 1);
    }
  }

  /** Reading back the padded digits of `n` gives `n`. */
  lemma {:induction false} ParseDecimal(n: nat, width: nat)
    ensures ParseDigits(Decimal(n, width)) == Some(n)
    decreases n + width
  {
    var s := Decimal(n, width);
    if n < 10 && width <= 1 {
      assert s[..|s| - 1] == [];
    } else {
      var w := if width == 0 then 0 else width - 1;
      var front := Decimal(n / 10, w);
      assert s == front + [Digit(n % 10)];
      assert s[..|s| - 1] == front;
      ParseDecimal(n / 10, w);
    }
  }

  /** The position of the first `c` in `s`, if there is one. */
  function IndexOf(s: string, c: char): (r: Option<nat>)
    ensures r.Some? ==> r.value < |s| && s[r.value] == c && c !in s[..r.value]
    ensures r.None? ==> c !in s
  {
    if |s| == 0 then None
    else if s[0] == c then Some(0)
    else match IndexOf(s[1..], c)
      case None => None
      case Some(i) => Some(i + 1)
  }

  /** The position of the last `c` in `s`, if there is one. */
  function LastIndexOf(s: string, c: char): (r: Option<nat>)
    ensures r.Some? ==> r.value < |s| && s[r.value] == c && c !in s[r.value + 1..]
    ensures r.None? ==> c !in s
  {
    if |s| == 0 then None
    else if s[|s| - 1] == c then Some(|s| - 1)
    else LastIndexOf(s[..|s| - 1], c)
  }

  /** Splits `s` at its first `c` into the text before and after it. */
  function SplitFirst(s: string, c: char): Option<(string, string)> {
    match IndexOf(s, c)
    case None => None
    case Some(i) => Some((s[..i], s[i + 1..]))
  }

  /** Splits `s` at its last `c` into the text before and after it. */
  function SplitLast(s: string, c: char): Option<(string, string)> {
    match LastIndexOf(s, c)
    case None => None
    case Some(i) => Some((s[..i], s[i + 1..]))
  }

  lemma SplitFirstAt(a: string, c: char, b: string)
    requires c !in a
    ensures SplitFirst(a + [c] + b, c) == Some((a, b))
  {
    var s := a + [c] + b;
    assert s[|a|] == c;
    var r := IndexOf(s, c);
    assert r.Some?;
    assert s[..|a|] == a;
    assert s[|a| + 1..] == b;
  }

  lemma SplitLastAt(a: string, c: char, b: string)
    requires c !in b
    ensures SplitLast(a + [c] + b, c) == Some((a, b))
  {
    var s := a + [c] + b;
    assert s[|a|] == c;
    var r := LastIndexOf(s, c);
    assert r.Some?;
    assert s[..|a|] == a;
    assert s[|a| + 1..] == b;
  }

  /** How many times `c` occurs in `s`. */
  function Count(s: string, c: char): nat {
    if |s| == 0 then 0 else (if s[0] == c then 1 else 0) + Count(s[1..], c)
  }

  lemma {:induction false} CountConcat(a: string, b: string, c: char)
    ensures Count(a + b, c) == Count(a, c) + Count(b, c)
    decreases |a|
  {
    if |a| == 0 {
      assert a + b == b;
    } else {
      assert (a + b)[1..] == a[1..] + b;
      CountConcat(a[1..], b, c);
    }
  }

  lemma {:induction false} CountAbsent(s: string, c: char)
    requires c !in s
    ensures Count(s, c) == 0
    decreases |s|
  {
    if |s| != 0 {
      assert s[1..] <= s[1..];
      assert forall x :: x in s[1..] ==> x in s;
      CountAbsent(s[1..], c);
    }
  }

  lemma {:induction false} CountPresent(s: string, c: char)
    requires c in s
    ensures Count(s, c) >= 1
    decreases |s|
  {
    if s[0] != c {
      assert c in s[1..];
      CountPresent(s[1..], c);
    }
  }

  lemma AppendAssoc(a: string, b: string, c: string)
    ensures a + (b + c) == (a + b) + c
  {
  }

  /** The concatenation of `f(x)` over the elements `x` of `xs`, in order. */
  function ConcatMap<T>(xs: seq<T>, f: T -> string): string {
    if xs == [] then "" else f(xs[0]) + ConcatMap(xs[1..], f)
  }

  lemma {:induction false} ConcatMapAppend<T>(a: seq<T>, b: seq<T>, f: T -> string)
    ensures ConcatMap(a + b, f) == ConcatMap(a, f) + ConcatMap(b, f)
  {
    if a == [] {
      assert a + b == b;
    } else {
      assert (a + b)[1..] == a[1..] + b;
      ConcatMapAppend(a[1..], b, f);
    }
  }

  /** The piece of element `k` sits between the pieces before and after it. */
  lemma ConcatMapAt<T>(xs: seq<T>, k: nat, f: T -> string)
    requires k < |xs|
    ensures ConcatMap(xs, f) == ConcatMap(xs[..k], f) + f(xs[k]) + ConcatMap(xs[k + 1..], f)
  {
    assert xs == xs[..k + 1] + xs[k + 1..];
    ConcatMapAppend(xs[..k + 1], xs[k + 1..], f);
    ConcatMapSnoc(xs, k, f);
  }

  /** Extending the elements by one appends that element's piece. */
  lemma ConcatMapSnoc<T>(xs: seq<T>, k: nat, f: T -> string)
    requires k < |xs|
    ensures ConcatMap(xs[..k + 1], f) == ConcatMap(xs[..k], f) + f(xs[k])
  {
    assert xs[..k + 1] == xs[..k] + [xs[k]];
    ConcatMapAppend(xs[..k], [xs[k]], f);
    assert [xs[k]][1..] == [];
  }

  lemma ConcatMapSingle<T>(x: T, f: T -> string)
    ensures ConcatMap([x], f) == f(x)
  {
    assert [x][1..] == [];
    assert f(x) + "" == f(x);
  }
}
