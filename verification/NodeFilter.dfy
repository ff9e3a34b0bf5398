/**
 The grammar of node filters: `group[:subset][:suffix]`.

 `Captures` gives it through the regular expression, and `FindSubmatch` computes the captured
 groups by splitting at the colons.
 */
module NodeFilter {
  import opened Regex
  import opened Strings
  import opened Wrappers

  // ---------- the grammar ----------

  const GROUPS := ["server", "servers", "agent", "agents", "loadbalancer", "all"]
  const GROUP := AnyOf(GROUPS)
  const LIST_ITEM := Cat(Plus(One(Digit)), Opt(One(Lit(','))))
  const SUBSET_LIST := Plus(LIST_ITEM)
  const SUBSET_RANGE := Cat(Star(One(Digit)), Cat(One(Lit('-')), Star(One(Digit))))
  const SUBSET := Alt(SUBSET_LIST, Alt(SUBSET_RANGE, One(Lit('*'))))
  const SUFFIX := Plus(One(Alpha))

  function SpecRegex(body: Regex): Regex { Opt(Cat(One(Lit(':')), body)) }

  const NODE_FILTER := Cat(GROUP, Cat(SpecRegex(SUBSET), SpecRegex(SUFFIX)))

  /** The captured groups; an empty subset or suffix is one that did not take part. */
  datatype Match = Match(group: string, subset: string, suffix: string)

  function Spec(part: string): string { if part == "" then "" else ":" + part }

  /** `m` is a way the pattern can match the whole of `s`. */
  ghost predicate Captures(s: string, m: Match) {
    && In(GROUP, m.group)
    && (m.subset == "" || In(SUBSET, m.subset))
    && (m.suffix == "" || In(SUFFIX, m.suffix))
    && s == m.group + Spec(m.subset) + Spec(m.suffix)
  }

  predicate IsGroup(s: string) { s in GROUPS }

  /** Numbers separated by single commas, perhaps with one comma at the end. */
  predicate IsList(s: string) {
    var pieces := Split(s, ',');
    && pieces[0] != ""
    && forall i | 0 <= i < |pieces| :: AllDigits(pieces[i]) && (i < |pieces| - 1 ==> pieces[i] != "")
  }

  predicate IsRangeAt(s: string, i: nat)
    requires i < |s|
  {
    s[i] == '-' && AllDigits(s[..i]) && AllDigits(s[i + 1..])
  }

  predicate IsRange(s: string) { exists i | 0 <= i < |s| :: IsRangeAt(s, i) }

  predicate IsSubset(s: string) { IsList(s) || IsRange(s) || s == "*" }

  predicate IsSuffix(s: string) { s != "" && AllAlpha(s) }

  /** The captured groups of a filter, if the pattern matches. */
  function FindSubmatch(s: string): Option<Match> {
    var parts := Split(s, ':');
    if !IsGroup(parts[0]) then None
    else if |parts| == 1 then Some(Match(parts[0], "", ""))
    else if |parts| == 2 then
      if IsSubset(parts[1]) then Some(Match(parts[0], parts[1], ""))
      else if IsSuffix(parts[1]) then Some(Match(parts[0], "", parts[1]))
      else None
    else if |parts| == 3 && IsSubset(parts[1]) && IsSuffix(parts[2]) then
      Some(Match(parts[0], parts[1], parts[2]))
    else None
  }

  lemma GroupMeaning(s: string)
    ensures In(GROUP, s) <==> IsGroup(s)
  {
    AnyOfMeaning(GROUPS, s);
  }

  predicate IsItem(s: string) {
    s != "" && AllDigits(s[..|s| - 1]) && (IsDigit(s[|s| - 1]) || (s[|s| - 1] == ',' && |s| > 1))
  }

  lemma ItemMeaning(s: string)
    ensures In(LIST_ITEM, s) <==> IsItem(s)
  {
    var digits, comma := Plus(One(Digit)), Opt(One(Lit(',')));
    if In(LIST_ITEM, s) {
      var x, y := CatElim(digits, comma, s);
      PlusOneMeaning(Digit, x);
      OptOneMeaning(Lit(','), y);
    }
    if IsItem(s) {
      var n := if s[|s| - 1] == ',' then |s| - 1 else |s|;
      forall i | 0 <= i < n ensures IsDigit(s[..n][i]) {
        assert i < |s| - 1 ==> s[i] == s[..|s| - 1][i];
      }
      PlusOneMeaning(Digit, s[..n]);
      OptOneMeaning(Lit(','), s[n..]);
      CatIntro(digits, comma, s[..n], s[n..]);
      assert s == s[..n] + s[n..];
    }
  }

  /** An item in front of a list makes a list. */
  lemma ListCons(x: string, y: string)
    requires IsItem(x)
    requires y == "" || IsList(y)
    ensures IsList(x + y)
  {
    hide Split, Join;
    SplitNone("", ',');
    var last := |x| - 1;
    if x[last] == ',' {
      SplitCons(x[..last], y, ',');
      assert x + y == x[..last] + [','] + y;
    } else {
      SplitPrefix(x, y, ',');
      assert AllDigits(Split(y, ',')[0]);
    }
  }

  /** Every list starts with an item. */
  lemma ListUncons(s: string) returns (x: string, y: string)
    requires IsList(s)
    ensures s == x + y && IsItem(x)
    ensures y == "" || IsList(y)
  {
    var pieces := Split(s, ',');
    if |pieces| == 1 {
      x, y := s, "";
    } else {
      x, y := pieces[0] + ",", Join(pieces[1..], ',');
      SplitJoin(pieces[1..], ',');
      if pieces[1] == "" {
        assert |pieces| == 2;
      } else {
        assert Split(y, ',') == pieces[1..];
      }
    }
  }

  lemma {:induction false} StarItemMeaning(s: string)
    ensures In(Star(LIST_ITEM), s) <==> s == "" || IsList(s)
    decreases |s|
  {
    if s != "" {
      if In(Star(LIST_ITEM), s) {
        var x, y := StarElim(LIST_ITEM, s);
        StarItemMeaning(y);
        ItemMeaning(x);
        ListCons(x, y);
      }
      if IsList(s) {
        var x, y := ListUncons(s);
        StarItemMeaning(y);
        ItemMeaning(x);
        StarIntro(LIST_ITEM, x, y);
      }
    }
  }

  lemma ListMeaning(s: string)
    ensures In(SUBSET_LIST, s) <==> IsList(s)
  {
    StarItemMeaning(s);
    if In(SUBSET_LIST, s) {
      var x, y := CatElim(LIST_ITEM, Star(LIST_ITEM), s);
      ItemMeaning(x);
      StarIntro(LIST_ITEM, x, y);
    }
    if IsList(s) {
      var x, y := StarElim(LIST_ITEM, s);
      CatIntro(LIST_ITEM, Star(LIST_ITEM), x, y);
    }
  }

  lemma RangeMeaning(s: string)
    ensures In(SUBSET_RANGE, s) <==> IsRange(s)
  {
    hide In;
    var digits, dash := Star(One(Digit)), One(Lit('-'));
    if In(SUBSET_RANGE, s) {
      var x, y := CatElim(digits, Cat(dash, digits), s);
      var d, z := CatElim(dash, digits, y);
      StarOneMeaning(Digit, x);
      OneMeaning(Lit('-'), d);
      StarOneMeaning(Digit, z);
      assert s[..|x|] == x && s[|x| + 1..] == z;
      assert IsRangeAt(s, |x|);
    }
    if IsRange(s) {
      var i :| 0 <= i < |s| && IsRangeAt(s, i);
      StarOneMeaning(Digit, s[..i]);
      OneMeaning(Lit('-'), s[i..i + 1]);
      StarOneMeaning(Digit, s[i + 1..]);
      Cat3Intro(digits, dash, digits, s[..i], s[i..i + 1], s[i + 1..]);
      assert s == s[..i] + s[i..i + 1] + s[i + 1..];
    }
  }

  lemma SubsetMeaning(s: string)
    ensures In(SUBSET, s) <==> IsSubset(s)
  {
    var wildcard := One(Lit('*'));
    ListMeaning(s);
    RangeMeaning(s);
    AltMeaning(SUBSET_LIST, Alt(SUBSET_RANGE, wildcard), s);
    AltMeaning(SUBSET_RANGE, wildcard, s);
    assert In(wildcard, s) <==> s == "*";
  }

  lemma SuffixMeaning(s: string)
    ensures In(SUFFIX, s) <==> IsSuffix(s)
  {
    PlusOneMeaning(Alpha, s);
  }

  /** A part of a filter is non-empty and has no colon in it. */
  predicate IsPart(s: string) { s != "" && ':' !in s }

  lemma GroupIsPart(s: string)
    requires IsGroup(s)
    ensures IsPart(s)
  {}

  /** A subset is a part and does not begin with a letter. */
  lemma SubsetIsPart(s: string)
    requires IsSubset(s)
    ensures IsPart(s) && !IsAlpha(s[0])
  {
    if IsList(s) {
      ListIsPart(s);
    } else if IsRange(s) {
      var i :| 0 <= i < |s| && IsRangeAt(s, i);
      forall j | 0 <= j < |s| ensures s[j] != ':' && !IsAlpha(s[j]) {
        assert j < i ==> s[j] == s[..i][j];
        assert j > i ==> s[j] == s[i + 1..][j - i - 1];
      }
    }
  }

  lemma {:induction false} ListIsPart(s: string)
    requires IsList(s)
    ensures s != "" && forall j | 0 <= j < |s| :: IsDigit(s[j]) || s[j] == ','
    decreases |s|
  {
    var x, y := ListUncons(s);
    if y != "" {
      ListIsPart(y);
    }
    forall j | 0 <= j < |s| ensures IsDigit(s[j]) || s[j] == ',' {
      assert j < |x| ==> s[j] == x[j];
      assert j < |x| - 1 ==> x[j] == x[..|x| - 1][j];
      assert j >= |x| ==> s[j] == y[j - |x|];
    }
  }

  function Parts(m: Match): seq<string> {
    [m.group] + (if m.subset == "" then [] else [m.subset]) + (if m.suffix == "" then [] else [m.suffix])
  }

  lemma JoinParts(m: Match)
    ensures Join(Parts(m), ':') == m.group + Spec(m.subset) + Spec(m.suffix)
  {
    var parts := Parts(m);
    if |parts| == 2 {
      assert parts[1..] == [parts[1]];
    } else if |parts| == 3 {
      assert parts[1..] == [m.subset, m.suffix];
      assert parts[1..][1..] == [m.suffix];
      assert Join(parts[1..], ':') == m.subset + ":" + m.suffix;
    }
  }

  /** The parts put together with colons are split at exactly those colons. */
  lemma SplitParts(m: Match)
    requires ':' !in m.group && ':' !in m.subset && ':' !in m.suffix
    ensures Split(m.group + Spec(m.subset) + Spec(m.suffix), ':') == Parts(m)
  {
    JoinParts(m);
    SplitJoin(Parts(m), ':');
  }

  /** The three parts are of the right kinds and put together make `s`. */
  predicate Consists(s: string, m: Match) {
    && IsGroup(m.group)
    && (m.subset == "" || IsSubset(m.subset))
    && (m.suffix == "" || IsSuffix(m.suffix))
    && s == m.group + Spec(m.subset) + Spec(m.suffix)
  }

  lemma ConsistsThenFound(s: string, m: Match)
    requires Consists(s, m)
    ensures FindSubmatch(s) == Some(m)
  {
    GroupIsPart(m.group);
    if m.subset != "" { SubsetIsPart(m.subset); }
    if m.suffix != "" && IsSubset(m.suffix) { SubsetIsPart(m.suffix); }
    SplitParts(m);
  }

  lemma SubsetNotEmpty()
    ensures !IsSubset("")
  {}

  lemma FoundThenConsists(s: string)
    ensures FindSubmatch(s).Some? ==> Consists(s, FindSubmatch(s).value)
  {
    hide IsSubset, Split, Join;
    if FindSubmatch(s).Some? {
      var m := FindSubmatch(s).value;
      SubsetNotEmpty();
      JoinParts(m);
      assert Parts(m) == Split(s, ':');
    }
  }

  lemma CapturesMeaning(s: string, m: Match)
    ensures Captures(s, m) <==> Consists(s, m)
  {
    GroupMeaning(m.group);
    SubsetMeaning(m.subset);
    SuffixMeaning(m.suffix);
  }

  /**
   The grammar is unambiguous: the groups computed by splitting at the colons are the
   only ones the pattern can capture.
   */
  lemma FindSubmatchMeaning(s: string, m: Match)
    ensures FindSubmatch(s) == Some(m) <==> Captures(s, m)
  {
    CapturesMeaning(s, m);
    if Consists(s, m) {
      ConsistsThenFound(s, m);
    }
    FoundThenConsists(s);
  }

  lemma PatternIntro(g: Regex, a: Regex, b: Regex, x: string, y: string, z: string)
    requires In(g, x) && (y == "" || In(a, y)) && (z == "" || In(b, z))
    ensures In(Cat(g, Cat(SpecRegex(a), SpecRegex(b))), x + Spec(y) + Spec(z))
  {
    SpecIntro(a, y);
    SpecIntro(b, z);
    Cat3Intro(g, SpecRegex(a), SpecRegex(b), x, Spec(y), Spec(z));
  }

  lemma PatternElim(g: Regex, a: Regex, b: Regex, s: string) returns (x: string, y: string, z: string)
    requires In(Cat(g, Cat(SpecRegex(a), SpecRegex(b))), s)
    requires !In(a, "") && !In(b, "")
    ensures In(g, x) && (y == "" || In(a, y)) && (z == "" || In(b, z))
    ensures s == x + Spec(y) + Spec(z)
  {
    var rest;
    x, rest := CatElim(g, Cat(SpecRegex(a), SpecRegex(b)), s);
    var u, v := CatElim(SpecRegex(a), SpecRegex(b), rest);
    y := SpecElim(a, u);
    z := SpecElim(b, v);
  }

  /** `FindSubmatch` succeeds exactly on the strings the regular expression matches. */
  lemma FindSubmatchTotal(s: string)
    ensures FindSubmatch(s).Some? <==> In(NODE_FILTER, s)
  {
    hide In, FindSubmatch;
    if FindSubmatch(s).Some? {
      var m := FindSubmatch(s).value;
      FindSubmatchMeaning(s, m);
      PatternIntro(GROUP, SUBSET, SUFFIX, m.group, m.subset, m.suffix);
    }
    if In(NODE_FILTER, s) {
      SubsetMeaning("");
      SuffixMeaning("");
      var x, y, z := PatternElim(GROUP, SUBSET, SUFFIX, s);
      FindSubmatchMeaning(s, Match(x, y, z));
    }
  }

  lemma SpecIntro(body: Regex, part: string)
    requires part == "" || In(body, part)
    ensures In(SpecRegex(body), Spec(part))
  {
    if part != "" {
      CatIntro(One(Lit(':')), body, ":", part);
    }
  }

  lemma SpecElim(body: Regex, s: string) returns (part: string)
    requires In(SpecRegex(body), s) && !In(body, "")
    ensures s == Spec(part) && (part == "" || In(body, part))
  {
    var colon := One(Lit(':'));
    AltMeaning(Cat(colon, body), Epsilon, s);
    if s == "" {
      part := "";
    } else {
      var x, y := CatElim(colon, body, s);
      part := y;
    }
  }
}
