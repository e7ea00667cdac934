/** String helpers: joining and splitting on a separator, decimal rendering of
    naturals, per-character replacement and ASCII upper-casing. */
module Strings {

  /** `String.Join(sep, xs)`: the elements of `xs` with `sep` between neighbours. */
  function Join(sep: string, xs: seq<string>): string
    decreases |xs|
  {
    if |xs| == 0 then ""
    else if |xs| == 1 then xs[0]
    else Join(sep, xs[..|xs| - 1]) + sep + xs[|xs| - 1]
  }

  /** Appending one element to a joined list, as a builder loop does. */
  lemma JoinAppend(sep: string, xs: seq<string>, x: string)
    ensures Join(sep, xs + [x]) == if xs == [] then x else Join(sep, xs) + sep + x
  {
    assert (xs + [x])[..|xs|] == xs;
  }

  /** A builder holding `start` and a joined list takes one more element by
      appending the separator (unless the list is empty) and the element. */
  lemma BuilderAppend(start: string, sep: string, xs: seq<string>, x: string)
    ensures (if xs == [] then start + Join(sep, xs) else start + Join(sep, xs) + sep) + x
      == start + Join(sep, xs + [x])
  {
    JoinAppend(sep, xs, x);
  }

  /** The pieces of `s` between occurrences of `c` (never an empty list). */
  function Split(c: char, s: string): (pieces: seq<string>)
    ensures |pieces| >= 1
    ensures forall i :: 0 <= i < |pieces| ==> c !in pieces[i]
    decreases |s|
  {
    if |s| == 0 then [""]
    else
      var init := Split(c, s[..|s| - 1]);
      if s[|s| - 1] == c then init + [""]
      else init[..|init| - 1] + [init[|init| - 1] + [s[|s| - 1]]]
  }

  /** A string free of the separator is a single piece. */
  lemma {:induction false} SplitFree(c: char, s: string)
    requires c !in s
    ensures Split(c, s) == [s]
    decreases |s|
  {
    if |s| > 0 {
      SplitFree(c, s[..|s| - 1]);
      assert s[..|s| - 1] + [s[|s| - 1]] == s;
    }
  }

  /** A separator followed by a separator-free tail adds exactly that tail as
      the last piece. */
  lemma {:induction false} SplitAfterSeparator(c: char, a: string, b: string)
    requires c !in b
    ensures Split(c, a + [c] + b) == Split(c, a) + [b]
    decreases |b|
  {
    if |b| == 0 {
      assert a + [c] + b == a + [c];
      assert (a + [c])[..|a|] == a;
    } else {
      var b' := b[..|b| - 1];
      var s := a + [c] + b;
      assert s[..|s| - 1] == a + [c] + b';
      assert s[|s| - 1] == b[|b| - 1];
      SplitAfterSeparator(c, a, b');
      assert b' + [b[|b| - 1]] == b;
    }
  }

  /** Splitting undoes joining when no element holds the separator. */
  lemma {:induction false} SplitJoin(c: char, xs: seq<string>)
    requires |xs| >= 1
    requires forall i :: 0 <= i < |xs| ==> c !in xs[i]
    ensures Split(c, Join([c], xs)) == xs
    decreases |xs|
  {
    if |xs| == 1 {
      SplitFree(c, xs[0]);
    } else {
      var ys := xs[..|xs| - 1];
      SplitJoin(c, ys);
      SplitAfterSeparator(c, Join([c], ys), xs[|xs| - 1]);
      assert ys + [xs[|xs| - 1]] == xs;
    }
  }

  /** The decimal digit for `d`. */
  function Digit(d: nat): (ch: char)
    requires d < 10
    ensures '0' <= ch <= '9' && ch as int - '0' as int == d
  {
    ('0' as int + d) as char
  }

  predicate IsDigits(s: string) {
    forall i :: 0 <= i < |s| ==> '0' <= s[i] <= '9'
  }

  /** `n.ToString()` for a non-negative integer: its decimal digits. */
  function NatToString(n: nat): (s: string)
    ensures |s| >= 1 && IsDigits(s)
    decreases n
  {
    if n < 10 then [Digit(n)] else NatToString(n / 10) + [Digit(n % 10)]
  }

  /** The number a string of decimal digits denotes. */
  function DigitsValue(s: string): nat
    requires IsDigits(s)
    decreases |s|
  {
    if |s| == 0 then 0
    else DigitsValue(s[..|s| - 1]) * 10 + (s[|s| - 1] as int - '0' as int)
  }

  /** Reading the decimal rendering back gives the number. */
  lemma {:induction false} NatToStringRoundTrip(n: nat)
    ensures DigitsValue(NatToString(n)) == n
    decreases n
  {
    var s := NatToString(n);
    if n >= 10 {
      NatToStringRoundTrip(n / 10);
      assert s[..|s| - 1] == NatToString(n / 10);
    }
  }

  /** Distinct naturals have distinct decimal renderings. */
  lemma NatToStringInjective(m: nat, n: nat)
    ensures NatToString(m) == NatToString(n) ==> m == n
  {
    NatToStringRoundTrip(m);
    NatToStringRoundTrip(n);
  }

  /** `s.Replace(from, to)` for single characters, scanning left to right. */
  function Replace(s: string, from: char, to: char): (r: string)
    ensures |r| == |s|
    ensures forall i :: 0 <= i < |s| ==> r[i] == if s[i] == from then to else s[i]
    decreases |s|
  {
    if |s| == 0 then ""
    else Replace(s[..|s| - 1], from, to) + [if s[|s| - 1] == from then to else s[|s| - 1]]
  }

  /** Upper-casing of one character, restricted to the ASCII letters. */
  function UpperChar(ch: char): char {
    if 'a' <= ch <= 'z' then (ch as int - 32) as char else ch
  }

  /** `s.ToUpper()` restricted to the ASCII letters. */
  function Upper(s: string): (r: string)
    ensures |r| == |s|
    ensures forall i :: 0 <= i < |s| ==> r[i] == UpperChar(s[i])
  {
    seq(|s|, i requires 0 <= i < |s| => UpperChar(s[i]))
  }
}
