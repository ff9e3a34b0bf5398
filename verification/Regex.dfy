/**
 Regular expressions over characters with their textbook meaning: `In(r, s)` says
 that the whole of `s` matches `r`.  Both patterns of the modelled code are anchored
 at both ends, so whole-string matching is all that is needed.
 */
module Regex {
  import opened Strings

  datatype CharClass = Lit(c: char) | Digit | Alpha | Alnum | AlnumHyphen

  predicate InClass(k: CharClass, c: char) {
    match k
    case Lit(d) => c == d
    case Digit => IsDigit(c)
    case Alpha => IsAlpha(c)
    case Alnum => IsAlnum(c)
    case AlnumHyphen => IsAlnum(c) || c == '-'
  }

  datatype Regex =
    | Epsilon
    | One(k: CharClass)
    | Cat(first: Regex, second: Regex)
    | Alt(left: Regex, right: Regex)
    | Star(body: Regex)

  function Opt(r: Regex): Regex { Alt(r, Epsilon) }

  function Plus(r: Regex): Regex { Cat(r, Star(r)) }

  function Word(w: string): Regex {
    if w == "" then Epsilon else Cat(One(Lit(w[0])), Word(w[1..]))
  }

  function AnyOf(words: seq<string>): Regex
    requires |words| > 0
  {
    if |words| == 1 then Word(words[0]) else Alt(Word(words[0]), AnyOf(words[1..]))
  }

  /** `s` as a whole matches `r`. */
  ghost predicate In(r: Regex, s: string)
    decreases r, |s| + 1
  {
    match r
    case Epsilon => s == ""
    case One(k) => |s| == 1 && InClass(k, s[0])
    case Cat(a, b) => exists i | 0 <= i <= |s| :: CatAt(a, b, s, i)
    case Alt(a, b) => In(a, s) || In(b, s)
    case Star(a) => s == "" || exists i | 0 < i <= |s| :: In(a, s[..i]) && In(r, s[i..])
  }

  ghost predicate CatAt(a: Regex, b: Regex, s: string, i: nat)
    requires i <= |s|
    decreases Cat(a, b), 0
  {
    In(a, s[..i]) && In(b, s[i..])
  }

  // ---------- building and taking apart matches ----------

  lemma CatIntro(a: Regex, b: Regex, x: string, y: string)
    requires In(a, x) && In(b, y)
    ensures In(Cat(a, b), x + y)
  {
    var s := x + y;
    assert s[..|x|] == x && s[|x|..] == y;
    assert CatAt(a, b, s, |x|);
  }

  lemma CatElim(a: Regex, b: Regex, s: string) returns (x: string, y: string)
    requires In(Cat(a, b), s)
    ensures s == x + y && In(a, x) && In(b, y)
  {
    var i :| 0 <= i <= |s| && CatAt(a, b, s, i);
    x, y := s[..i], s[i..];
  }

  lemma Cat3Intro(a: Regex, b: Regex, c: Regex, x: string, y: string, z: string)
    requires In(a, x) && In(b, y) && In(c, z)
    ensures In(Cat(a, Cat(b, c)), x + y + z)
  {
    hide In;
    CatIntro(b, c, y, z);
    CatIntro(a, Cat(b, c), x, y + z);
    assert x + y + z == x + (y + z);
  }

  lemma StarIntro(a: Regex, x: string, y: string)
    requires x != "" && In(a, x) && In(Star(a), y)
    ensures In(Star(a), x + y)
  {
    var s := x + y;
    assert s[..|x|] == x && s[|x|..] == y;
  }

  lemma StarNone(a: Regex)
    ensures In(Star(a), "")
  {}

  lemma StarElim(a: Regex, s: string) returns (x: string, y: string)
    requires In(Star(a), s) && s != ""
    ensures s == x + y && x != "" && In(a, x) && In(Star(a), y)
  {
    var i :| 0 < i <= |s| && In(a, s[..i]) && In(Star(a), s[i..]);
    x, y := s[..i], s[i..];
  }

  /** A literal word matches itself and nothing else. */
  lemma {:induction false} WordMeaning(w: string, s: string)
    ensures In(Word(w), s) <==> s == w
  {
    if w != "" {
      if In(Word(w), s) {
        var x, y := CatElim(One(Lit(w[0])), Word(w[1..]), s);
        WordMeaning(w[1..], y);
        assert w == [w[0]] + w[1..];
      }
      if s == w {
        WordMeaning(w[1..], w[1..]);
        CatIntro(One(Lit(w[0])), Word(w[1..]), [w[0]], w[1..]);
        assert w == [w[0]] + w[1..];
      }
    }
  }

  lemma {:induction false} AnyOfMeaning(words: seq<string>, s: string)
    requires |words| > 0
    ensures In(AnyOf(words), s) <==> s in words
  {
    WordMeaning(words[0], s);
    if |words| > 1 {
      AnyOfMeaning(words[1..], s);
    }
  }

  lemma AltMeaning(a: Regex, b: Regex, s: string)
    ensures In(Alt(a, b), s) <==> In(a, s) || In(b, s)
  {}

  lemma OneMeaning(k: CharClass, s: string)
    ensures In(One(k), s) <==> |s| == 1 && InClass(k, s[0])
  {}

  lemma OptOneMeaning(k: CharClass, s: string)
    ensures In(Opt(One(k)), s) <==> s == "" || (|s| == 1 && InClass(k, s[0]))
  {}

  /** The strings matched by `k*` are those with every character in `k`. */
  lemma {:induction false} StarOneMeaning(k: CharClass, s: string)
    ensures In(Star(One(k)), s) <==> forall i | 0 <= i < |s| :: InClass(k, s[i])
    decreases |s|
  {
    if s != "" {
      if In(Star(One(k)), s) {
        var x, y := StarElim(One(k), s);
        StarOneMeaning(k, y);
        assert forall i | 1 <= i < |s| :: s[i] == y[i - 1];
      }
      if forall i | 0 <= i < |s| :: InClass(k, s[i]) {
        StarOneMeaning(k, s[1..]);
        StarIntro(One(k), s[..1], s[1..]);
        assert s == s[..1] + s[1..];
      }
    }
  }

  /** The strings matched by `k+` are the non-empty ones with every character in `k`. */
  lemma PlusOneMeaning(k: CharClass, s: string)
    ensures In(Plus(One(k)), s) <==> s != "" && forall i | 0 <= i < |s| :: InClass(k, s[i])
  {
    if In(Plus(One(k)), s) {
      var x, y := CatElim(One(k), Star(One(k)), s);
      StarOneMeaning(k, y);
      assert forall i | 1 <= i < |s| :: s[i] == y[i - 1];
    }
    if s != "" && forall i | 0 <= i < |s| :: InClass(k, s[i]) {
      StarOneMeaning(k, s[1..]);
      CatIntro(One(k), Star(One(k)), s[..1], s[1..]);
      assert s == s[..1] + s[1..];
    }
  }
}
