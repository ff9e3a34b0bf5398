/**
 The part of Go's `strings` and `strconv` packages that the modelled code calls:
 splitting and joining at a separator character, prefix and suffix tests, and
 decimal numerals.  Strings are sequences of characters.
 */
module Strings {

  predicate HasSuffix(s: string, suffix: string) {
    |suffix| <= |s| && s[|s| - |suffix|..] == suffix
  }

  function TrimSuffix(s: string, suffix: string): string {
    if HasSuffix(s, suffix) then s[..|s| - |suffix|] else s
  }

  predicate HasPrefix(s: string, prefix: string) {
    prefix <= s
  }

  predicate OccursAt(s: string, sub: string, i: nat) {
    i + |sub| <= |s| && s[i..i + |sub|] == sub
  }

  predicate Contains(s: string, sub: string) {
    exists i | 0 <= i <= |s| :: OccursAt(s, sub, i)
  }

  /** A string contains another one if it is that one with text before and after it. */
  lemma ContainsMeaning(s: string, sub: string)
    ensures Contains(s, sub) <==> exists before, after :: s == before + sub + after
  {
    if Contains(s, sub) {
      var i :| 0 <= i <= |s| && OccursAt(s, sub, i);
      assert s == s[..i] + sub + s[i + |sub|..];
    }
    if before, after :| s == before + sub + after {
      assert OccursAt(s, sub, |before|);
    }
  }

  // ---------- splitting and joining ----------

  /** The pieces of `s` between occurrences of `sep`; always at least one piece. */
  function Split(s: string, sep: char): (pieces: seq<string>)
    ensures |pieces| >= 1
    ensures forall i | 0 <= i < |pieces| :: sep !in pieces[i]
    ensures Join(pieces, sep) == s
  {
    if s == [] then [""]
    else
      var rest := Split(s[1..], sep);
      if s[0] == sep then
        [""] + rest
      else
        assert ([s[0]] + rest[0]) == s[..1] + rest[0];
        [[s[0]] + rest[0]] + rest[1..]
  }

  function Join(pieces: seq<string>, sep: char): string {
    if |pieces| == 0 then ""
    else if |pieces| == 1 then pieces[0]
    else pieces[0] + [sep] + Join(pieces[1..], sep)
  }

  /** Joining pieces free of the separator and splitting again gives the pieces back. */
  lemma {:induction false} SplitJoin(pieces: seq<string>, sep: char)
    requires |pieces| >= 1
    requires forall i | 0 <= i < |pieces| :: sep !in pieces[i]
    ensures Split(Join(pieces, sep), sep) == pieces
    decreases |pieces|, if pieces == [] then 0 else |pieces[0]|
  {
    var s := Join(pieces, sep);
    if pieces[0] == "" {
      if |pieces| == 1 {
      } else {
        assert s[1..] == Join(pieces[1..], sep);
        SplitJoin(pieces[1..], sep);
      }
    } else {
      var shorter := [pieces[0][1..]] + pieces[1..];
      assert s[1..] == Join(shorter, sep) by {
        assert shorter[1..] == pieces[1..];
      }
      SplitJoin(shorter, sep);
      assert s[0] == pieces[0][0] != sep;
      assert [s[0]] + shorter[0] == pieces[0];
    }
  }

  /** A string without the separator is one piece. */
  lemma SplitNone(s: string, sep: char)
    requires sep !in s
    ensures Split(s, sep) == [s]
  {
    SplitJoin([s], sep);
  }

  /** Splitting at the first separator. */
  lemma SplitCons(a: string, b: string, sep: char)
    requires sep !in a
    ensures Split(a + [sep] + b, sep) == [a] + Split(b, sep)
  {
    var pieces := [a] + Split(b, sep);
    assert Join(pieces, sep) == a + [sep] + b by {
      assert pieces[1..] == Split(b, sep);
    }
    SplitJoin(pieces, sep);
  }

  /** Characters before the first separator only lengthen the first piece. */
  lemma {:induction false} SplitPrefix(x: string, y: string, sep: char)
    requires sep !in x
    ensures Split(x + y, sep) == [x + Split(y, sep)[0]] + Split(y, sep)[1..]
  {
    var pieces := [x + Split(y, sep)[0]] + Split(y, sep)[1..];
    assert Join(pieces, sep) == x + y by {
      assert pieces[1..] == Split(y, sep)[1..];
    }
    SplitJoin(pieces, sep);
  }

  /** Characters after the last separator only lengthen the last piece. */
  lemma {:induction false} SplitSuffix(x: string, y: string, sep: char)
    requires sep !in y
    ensures var pieces := Split(x, sep);
            Split(x + y, sep) == pieces[..|pieces| - 1] + [pieces[|pieces| - 1] + y]
  {
    var pieces := Split(x, sep);
    JoinSuffix(pieces, y, sep);
    SplitJoin(pieces[..|pieces| - 1] + [pieces[|pieces| - 1] + y], sep);
  }

  lemma {:induction false} JoinSuffix(pieces: seq<string>, y: string, sep: char)
    requires |pieces| >= 1
    ensures Join(pieces[..|pieces| - 1] + [pieces[|pieces| - 1] + y], sep) == Join(pieces, sep) + y
  {
    var longer := pieces[..|pieces| - 1] + [pieces[|pieces| - 1] + y];
    if |pieces| > 1 {
      JoinSuffix(pieces[1..], y, sep);
      assert longer[1..] == pieces[1..][..|pieces| - 2] + [pieces[|pieces| - 1] + y];
    }
  }

  // ---------- characters and numerals ----------

  predicate IsDigit(c: char) { '0' <= c <= '9' }

  predicate IsAlpha(c: char) { 'a' <= c <= 'z' || 'A' <= c <= 'Z' }

  predicate IsAlnum(c: char) { IsDigit(c) || IsAlpha(c) }

  predicate AllDigits(s: string) { forall i | 0 <= i < |s| :: IsDigit(s[i]) }

  predicate AllAlpha(s: string) { forall i | 0 <= i < |s| :: IsAlpha(s[i]) }

  /** The number a digit string denotes. */
  function DecimalValue(s: string): nat
    requires AllDigits(s)
  {
    if s == "" then 0
    else 10 * DecimalValue(s[..|s| - 1]) + (s[|s| - 1] - '0') as int
  }

  /** The decimal numeral of `n`, without leading zeros. */
  function Decimal(n: nat): (s: string)
    ensures s != "" && AllDigits(s)
    ensures DecimalValue(s) == n
  {
    var d := ['0' + (n % 10) as char];
    if n < 10 then d else
    var front := Decimal(n / 10);
    assert (front + d)[..|front + d| - 1] == front;
    front + d
  }

  function Pow10(k: nat): nat { if k == 0 then 1 else 10 * Pow10(k - 1) }

  lemma {:induction false} DecimalLength(n: nat, k: nat)
    requires k >= 1
    ensures |Decimal(n)| <= k <==> n < Pow10(k)
  {
    if k == 1 {
    } else if n < 10 {
      DecimalLength(n, k - 1);
    } else {
      DecimalLength(n / 10, k - 1);
    }
  }

  /** `Decimal` never maps two numbers to the same numeral. */
  lemma DecimalInjective(m: nat, n: nat)
    requires Decimal(m) == Decimal(n)
    ensures m == n
  {
    assert DecimalValue(Decimal(m)) == DecimalValue(Decimal(n));
  }
}
