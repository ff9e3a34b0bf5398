/**
 Splitting a flag such as `8080:80@loadbalancer;server:0` at its one unescaped '@'.

 `SplitFiltersFromFlag` is the loop of the program.  `Print` writes a value and its filters
 as a flag; the two are inverse to each other, and `Expressible` says on which pairs.
 */
module FlagSplit {
  import opened Strings

  /** The filters are empty exactly when the flag has no '@' at all. */
  datatype FlagResult = Flag(value: string, filters: seq<string>) | TooMany | MissingFilter

  /** A segment that ends in exactly one backslash makes the following '@' a literal one. */
  predicate Escapes(segment: string) {
    HasSuffix(segment, "\\") && !HasSuffix(segment, "\\\\")
  }

  /** A segment that ends in two or more backslashes loses one of them. */
  function Unquote(segment: string): string {
    if HasSuffix(segment, "\\\\") then TrimSuffix(segment, "\\") else segment
  }

  /** The pieces the segments between '@' signs are put together to. */
  function Glue(segments: seq<string>, buffer: string): (pieces: seq<string>)
    requires |segments| >= 1
    ensures |pieces| >= 1
  {
    if |segments| == 1 then [buffer + segments[0]]
    else if Escapes(segments[0]) then Glue(segments[1..], buffer + TrimSuffix(segments[0], "\\") + "@")
    else [buffer + Unquote(segments[0])] + Glue(segments[1..], "")
  }

  /** Reading one segment that is followed by an '@'. */
  lemma GlueStep(first: string, rest: seq<string>, buffer: string)
    requires |rest| >= 1
    ensures Glue([first] + rest, buffer) ==
            if Escapes(first) then Glue(rest, buffer + TrimSuffix(first, "\\") + "@")
            else [buffer + Unquote(first)] + Glue(rest, "")
  {
    assert ([first] + rest)[1..] == rest;
  }

  /** Suffix tests for one and two backslashes, character by character. */
  lemma Backslashes(s: string)
    ensures HasSuffix(s, "\\") <==> |s| >= 1 && s[|s| - 1] == '\\'
    ensures HasSuffix(s, "\\\\") <==> |s| >= 2 && s[|s| - 1] == '\\' && s[|s| - 2] == '\\'
    ensures HasSuffix(s, "\\") ==> TrimSuffix(s, "\\") == s[..|s| - 1]
  {
    if |s| >= 1 {
      assert s[|s| - 1..] == [s[|s| - 1]];
    }
    if |s| >= 2 {
      assert s[|s| - 2..] == [s[|s| - 2], s[|s| - 1]];
    }
  }

  function SplitFlag(flag: string): FlagResult {
    if '@' !in flag then Flag(flag, [])
    else
      var pieces := Glue(Split(flag, '@'), "");
      if |pieces| > 2 then TooMany
      else if |pieces| < 2 then MissingFilter
      else Flag(pieces[0], Split(pieces[1], ';'))
  }

  method SplitFiltersFromFlag(flag: string) returns (r: FlagResult)
    ensures r == SplitFlag(flag)
  {
    if '@' !in flag {
      return Flag(flag, []);
    }
    var split := Split(flag, '@');
    var newsplit: seq<string>, buffer := [], "";
    for i := 0 to |split|
      invariant i < |split| ==> newsplit + Glue(split[i..], buffer) == Glue(split, "")
      invariant i == |split| ==> newsplit == Glue(split, "")
    {
      var it := split[i];
      assert split[i..][1..] == split[i + 1..];
      if HasSuffix(it, "\\") && i != |split| - 1 {
        if HasSuffix(it, "\\\\") {
          it := TrimSuffix(it, "\\");
        } else {
          buffer := buffer + TrimSuffix(it, "\\") + "@";
          continue;
        }
      }
      newsplit := newsplit + [buffer + it];
      buffer := "";
    }
    if |newsplit| > 2 {
      return TooMany;
    }
    if |newsplit| < 2 {
      return MissingFilter;
    }
    return Flag(newsplit[0], Split(newsplit[1], ';'));
  }

  // ---------- writing flags ----------

  function Escape(s: string): string {
    if s == "" then ""
    else (if s[0] == '@' then "\\@" else [s[0]]) + Escape(s[1..])
  }

  function Guard(value: string): string { if HasSuffix(value, "\\") then "\\" else "" }

  /** A value and its filters as a flag. */
  function Print(value: string, filters: seq<string>): string {
    Escape(value) + Guard(value) + "@" + Escape(Join(filters, ';'))
  }

  /** No '@' comes directly after a backslash. */
  predicate Plain(s: string) {
    forall i | 0 < i < |s| :: s[i] == '@' ==> s[i - 1] != '\\'
  }

  /** The pairs of a value and a list of filters that some flag stands for. */
  predicate Expressible(value: string, filters: seq<string>) {
    && Plain(value)
    && filters != []
    && (forall i | 0 <= i < |filters| :: ';' !in filters[i])
    && Plain(Join(filters, ';'))
  }

  lemma {:induction false} EscapeNone(s: string)
    requires '@' !in s
    ensures Escape(s) == s
  {
    if s != "" {
      EscapeNone(s[1..]);
    }
  }

  lemma {:induction false} EscapeConcat(a: string, b: string)
    ensures Escape(a + b) == Escape(a) + Escape(b)
  {
    if a == "" {
      assert a + b == b;
    } else {
      assert (a + b)[1..] == a[1..] + b;
      EscapeConcat(a[1..], b);
    }
  }

  lemma EscapeCons(a: string, b: string)
    requires '@' !in a
    ensures Escape(a + "@" + b) == a + "\\@" + Escape(b)
  {
    EscapeNone(a);
    EscapeConcat(a + "@", b);
    EscapeConcat(a, "@");
    assert Escape("@") == "\\@";
  }

  /** The text before the first '@' and the text after it. */
  lemma {:induction false} FirstAt(s: string) returns (a: string, b: string)
    requires '@' in s
    ensures s == a + "@" + b && '@' !in a
    ensures Plain(s) ==> Plain(b) && !HasSuffix(a, "\\")
    ensures HasSuffix(s, "\\") <==> HasSuffix(b, "\\")
  {
    hide Plain, HasSuffix;
    if s[0] == '@' {
      a, b := "", s[1..];
    } else {
      a, b := FirstAt(s[1..]);
      a := [s[0]] + a;
    }
    FirstAtPlain(a, b);
  }

  lemma FirstAtPlain(a: string, b: string)
    ensures Plain(a + "@" + b) ==> Plain(b) && !HasSuffix(a, "\\")
    ensures HasSuffix(a + "@" + b, "\\") <==> HasSuffix(b, "\\")
  {
    hide HasSuffix;
    var s := a + "@" + b;
    Backslashes(a);
    Backslashes(b);
    Backslashes(s);
    if Plain(s) {
      assert s[|a|] == '@' && (a != "" ==> s[|a| - 1] == a[|a| - 1]);
      forall j | 0 < j < |b| ensures b[j] == '@' ==> b[j - 1] != '\\' {
        assert s[|a| + 1 + j] == b[j] && s[|a| + j] == b[j - 1];
      }
    }
  }

  /** Reading an escaped value: up to the guarded '@', the pieces give the value back. */
  lemma {:induction false} ReadValue(value: string, rest: string, buffer: string)
    requires Plain(value)
    ensures Glue(Split(Escape(value) + Guard(value) + "@" + rest, '@'), buffer)
            == [buffer + value] + Glue(Split(rest, '@'), "")
    decreases |value|
  {
    hide Split, Glue, Escape, Escapes, Unquote, HasSuffix, TrimSuffix;
    if '@' in value {
      var a, b := FirstAt(value);
      EscapeCons(a, b);
      var tail := Escape(b) + Guard(b) + "@" + rest;
      assert Escape(value) + Guard(value) + "@" + rest == (a + "\\") + ['@'] + tail;
      SplitCons(a + "\\", tail, '@');
      EscapingSegment(a);
      GlueStep(a + "\\", Split(tail, '@'), buffer);
      ReadValue(b, rest, buffer + a + "@");
      assert buffer + a + "@" + b == buffer + value;
    } else {
      EscapeNone(value);
      var segment := value + Guard(value);
      SplitCons(segment, rest, '@');
      assert Escape(value) + Guard(value) + "@" + rest == segment + ['@'] + rest;
      GuardedSegment(value);
      GlueStep(segment, Split(rest, '@'), buffer);
    }
  }

  lemma EscapingSegment(a: string)
    requires !HasSuffix(a, "\\")
    ensures Escapes(a + "\\") && TrimSuffix(a + "\\", "\\") == a
  {
    hide HasSuffix, TrimSuffix;
    Backslashes(a);
    Backslashes(a + "\\");
  }

  lemma GuardedSegment(value: string)
    ensures !Escapes(value + Guard(value)) && Unquote(value + Guard(value)) == value
  {
    hide HasSuffix, TrimSuffix;
    Backslashes(value);
    Backslashes(value + Guard(value));
  }

  /** Reading an escaped text to the end gives one piece. */
  lemma {:induction false} ReadText(text: string, buffer: string)
    requires Plain(text)
    ensures Glue(Split(Escape(text), '@'), buffer) == [buffer + text]
    decreases |text|
  {
    hide Split, Escape, Escapes, Unquote, HasSuffix, TrimSuffix;
    if '@' in text {
      var a, b := FirstAt(text);
      EscapeCons(a, b);
      assert Escape(text) == (a + "\\") + ['@'] + Escape(b);
      SplitCons(a + "\\", Escape(b), '@');
      EscapingSegment(a);
      GlueStep(a + "\\", Split(Escape(b), '@'), buffer);
      ReadText(b, buffer + a + "@");
      assert buffer + a + "@" + b == buffer + text;
    } else {
      EscapeNone(text);
      SplitNone(text, '@');
    }
  }

  /** Splitting inverts printing on every expressible pair. */
  lemma SplitPrint(value: string, filters: seq<string>)
    requires Expressible(value, filters)
    ensures SplitFlag(Print(value, filters)) == Flag(value, filters)
  {
    var text := Join(filters, ';');
    ReadValue(value, Escape(text), "");
    ReadText(text, "");
    SplitJoin(filters, ';');
    assert "" + value == value && "" + text == text;
    assert Print(value, filters)[|Escape(value) + Guard(value)|] == '@';
  }

  // ---------- reading flags ----------

  /** One or two pieces together are the printed form of the text they were read from. */
  ghost predicate Written(pieces: seq<string>, text: string) {
    && |pieces| >= 1
    && Plain(pieces[0])
    && (|pieces| == 1 ==> Escape(pieces[0]) == text)
    && (|pieces| == 2 ==>
          Plain(pieces[1]) && Escape(pieces[0]) + Guard(pieces[0]) + "@" + Escape(pieces[1]) == text)
  }

  /** `done` is what the buffer has taken up before these segments. */
  lemma {:induction false} GlueShape(segments: seq<string>, done: string)
    requires |segments| >= 1
    requires forall i | 0 <= i < |segments| :: '@' !in segments[i]
    requires Plain(done) && !HasSuffix(done, "\\")
    ensures Written(Glue(segments, done), Escape(done) + Join(segments, '@'))
    decreases |segments|, 0
  {
    hide Escape, Escapes, Unquote, HasSuffix, TrimSuffix, Glue, Plain;
    var first := segments[0];
    if |segments| == 1 {
      EscapeConcat(done, first);
      EscapeNone(first);
      PlainConcat(done, first);
      GlueLast(first, done);
      assert segments == [first];
    } else {
      var rest := segments[1..];
      assert segments == [first] + rest;
      GlueStep(first, rest, done);
      assert Join(segments, '@') == first + "@" + Join(rest, '@');
      if Escapes(first) {
        EscapingStep(rest, done, first);
      } else {
        ClosingStep(rest, done, first);
      }
    }
  }

  lemma GlueLast(segment: string, buffer: string)
    ensures Glue([segment], buffer) == [buffer + segment]
  {}

  lemma EscapingStep(rest: seq<string>, done: string, first: string)
    requires |rest| >= 1
    requires '@' !in first && forall i | 0 <= i < |rest| :: '@' !in rest[i]
    requires Plain(done) && !HasSuffix(done, "\\") && Escapes(first)
    ensures Written(Glue(rest, done + TrimSuffix(first, "\\") + "@"), Escape(done) + (first + "@" + Join(rest, '@')))
    decreases |rest|, 1
  {
    hide Escape, Escapes, Unquote, HasSuffix, TrimSuffix, Glue, Plain, Written;
    var a := TrimSuffix(first, "\\");
    TrimmedOnce(done, first);
    PlainConcat(done, a);
    PlainAt(done + a);
    EscapeConcat(done, a + "@");
    EscapeCons(a, "");
    EscapeNone("");
    assert a + "@" + "" == a + "@";
    assert done + (a + "@") == done + a + "@";
    GlueShape(rest, done + a + "@");
    assert Escape(done + a + "@") == Escape(done) + (a + "\\@" + "");
    assert Escape(done + a + "@") + Join(rest, '@') == Escape(done) + (first + "@" + Join(rest, '@'));
  }

  lemma ClosingStep(rest: seq<string>, done: string, first: string)
    requires |rest| >= 1
    requires '@' !in first && forall i | 0 <= i < |rest| :: '@' !in rest[i]
    requires Plain(done) && !HasSuffix(done, "\\") && !Escapes(first)
    ensures Written([done + Unquote(first)] + Glue(rest, ""), Escape(done) + (first + "@" + Join(rest, '@')))
    decreases |rest|, 1
  {
    hide Escape, Escapes, Unquote, HasSuffix, TrimSuffix, Glue, Plain, Join, Guard;
    var a := Unquote(first);
    UnquoteGuard(done, first);
    PlainConcat(done, a);
    EscapeConcat(done, a);
    EscapeNone(a);
    EscapeNone("");
    Backslashes("");
    PlainNone();
    GlueShape(rest, "");
    var tail, text := Glue(rest, ""), Join(rest, '@');
    assert "" + text == text;
    Reassociate(Escape(done), a, Guard(done + a), text);
  }

  lemma Reassociate(d: string, a: string, g: string, text: string)
    ensures d + a + g + "@" + text == d + (a + g + "@" + text)
  {}

  lemma PlainNone()
    ensures Plain("")
  {}

  lemma PlainConcat(a: string, b: string)
    requires Plain(a) && '@' !in b
    ensures Plain(a + b)
  {}

  lemma PlainAt(a: string)
    requires Plain(a) && !HasSuffix(a, "\\")
    ensures Plain(a + "@") && !HasSuffix(a + "@", "\\")
  {
    hide HasSuffix, TrimSuffix;
    Backslashes(a);
    Backslashes(a + "@");
  }

  /** A segment with exactly one backslash at its end has none left when that is removed. */
  lemma TrimmedOnce(done: string, segment: string)
    requires Escapes(segment) && !HasSuffix(done, "\\")
    ensures segment == TrimSuffix(segment, "\\") + "\\"
    ensures !HasSuffix(done + TrimSuffix(segment, "\\"), "\\")
    ensures '@' !in segment ==> '@' !in TrimSuffix(segment, "\\")
  {
    hide HasSuffix, TrimSuffix;
    var n := |segment|;
    Backslashes(segment);
    var a := TrimSuffix(segment, "\\");
    assert a == segment[..n - 1];
    assert segment == segment[..n - 1] + [segment[n - 1]];
    NoSuffix(done, a);
  }

  /** Texts that do not end in a backslash do not do so together. */
  lemma NoSuffix(a: string, b: string)
    requires !HasSuffix(a, "\\") && (|b| > 0 ==> b[|b| - 1] != '\\')
    ensures !HasSuffix(a + b, "\\")
  {
    hide HasSuffix, TrimSuffix;
    Backslashes(a + b);
    if |b| == 0 {
      assert a + b == a;
    } else {
      assert (a + b)[|a + b| - 1] == b[|b| - 1];
    }
  }

  lemma UnquoteGuard(done: string, segment: string)
    requires !Escapes(segment) && !HasSuffix(done, "\\")
    ensures Unquote(segment) + Guard(done + Unquote(segment)) == segment
    ensures '@' !in segment ==> '@' !in Unquote(segment)
  {
    hide HasSuffix, TrimSuffix;
    var a := Unquote(segment);
    Backslashes(segment);
    GuardConcat(done, a);
    Backslashes(a);
  }

  lemma GuardConcat(done: string, a: string)
    requires !HasSuffix(done, "\\")
    ensures Guard(done + a) == Guard(a)
  {
    hide HasSuffix;
    Backslashes(done);
    Backslashes(a);
    Backslashes(done + a);
  }

  /**
   The main theorem: reading a flag with a filter and writing one are inverse to each other.
   A flag gives a value and filters exactly when they are expressible and the flag is the way
   they are written, so every expressible pair has one flag and no other pair has any.
   */
  lemma SplitIsInverseOfPrint(flag: string, value: string, filters: seq<string>)
    requires filters != []
    ensures SplitFlag(flag) == Flag(value, filters) <==> Expressible(value, filters) && flag == Print(value, filters)
  {
    if SplitFlag(flag) == Flag(value, filters) {
      var segments := Split(flag, '@');
      GlueShape(segments, "");
      var pieces := Glue(segments, "");
      assert Join(filters, ';') == pieces[1];
      assert Escape("") + flag == flag;
    }
    if Expressible(value, filters) && flag == Print(value, filters) {
      SplitPrint(value, filters);
    }
  }

  // ---------- which flags are accepted ----------

  /** The number of backslashes directly before position `i`. */
  function Run(s: string, i: nat): nat
    requires i <= |s|
  {
    if i == 0 || s[i - 1] != '\\' then 0 else 1 + Run(s, i - 1)
  }

  /** An '@' is escaped if the run of backslashes before it has length one. */
  predicate UnescapedAt(s: string, i: nat) {
    i < |s| && s[i] == '@' && Run(s, i) != 1
  }

  /** The number of unescaped '@' signs before position `k`. */
  function Count(s: string, k: nat): nat
    requires k <= |s|
  {
    if k == 0 then 0 else Count(s, k - 1) + if UnescapedAt(s, k - 1) then 1 else 0
  }

  lemma {:induction false} RunPrefix(a: string, b: string, i: nat)
    requires i <= |a|
    ensures Run(a + b, i) == Run(a, i)
  {
    if i > 0 {
      RunPrefix(a, b, i - 1);
    }
  }

  lemma RunSuffix(a: string)
    ensures Run(a, |a|) >= 1 <==> HasSuffix(a, "\\")
    ensures Run(a, |a|) >= 2 <==> HasSuffix(a, "\\\\")
  {
    hide HasSuffix;
    Backslashes(a);
  }

  /** Backslashes are counted back to an '@' at most. */
  lemma {:induction false} RunAfterAt(a: string, b: string, i: nat)
    requires i <= |b|
    ensures Run(a + "@" + b, |a| + 1 + i) == Run(b, i)
  {
    if i > 0 {
      RunAfterAt(a, b, i - 1);
    }
  }

  lemma {:induction false} CountCons(a: string, b: string, k: nat)
    requires '@' !in a
    requires k <= |a| + 1 + |b|
    ensures Count(a + "@" + b, k) ==
            if k <= |a| then 0 else (if Escapes(a) then 0 else 1) + Count(b, k - |a| - 1)
    decreases k
  {
    var s := a + "@" + b;
    if k > 0 {
      CountCons(a, b, k - 1);
      if k - 1 < |a| {
        assert s[k - 1] == a[k - 1];
      } else if k - 1 == |a| {
        RunPrefix(a, "@" + b, |a|);
        assert s == a + ("@" + b);
        RunSuffix(a);
      } else {
        RunAfterAt(a, b, k - |a| - 2);
        assert s[k - 1] == b[k - |a| - 2];
      }
    }
  }

  lemma {:induction false} CountNone(s: string, k: nat)
    requires '@' !in s && k <= |s|
    ensures Count(s, k) == 0
  {
    if k > 0 {
      CountNone(s, k - 1);
    }
  }

  /** The loop makes one piece more than there are unescaped '@' signs. */
  lemma {:induction false} GlueCount(segments: seq<string>, buffer: string)
    requires |segments| >= 1
    requires forall i | 0 <= i < |segments| :: '@' !in segments[i]
    ensures |Glue(segments, buffer)| == 1 + Count(Join(segments, '@'), |Join(segments, '@')|)
  {
    hide HasSuffix, TrimSuffix, Count;
    if |segments| == 1 {
      CountNone(segments[0], |segments[0]|);
    } else {
      var rest := Join(segments[1..], '@');
      assert Join(segments, '@') == segments[0] + "@" + rest;
      CountCons(segments[0], rest, |Join(segments, '@')|);
      GlueCount(segments[1..], if Escapes(segments[0]) then buffer + TrimSuffix(segments[0], "\\") + "@" else "");
    }
  }

  lemma {:induction false} CountZero(s: string, k: nat)
    requires k <= |s|
    ensures Count(s, k) == 0 <==> forall i | 0 <= i < k :: !UnescapedAt(s, i)
  {
    if k > 0 {
      CountZero(s, k - 1);
    }
  }

  /** There is exactly one unescaped '@' before position `k`. */
  ghost predicate OneUnescaped(s: string, k: nat) {
    exists i: nat :: OnlyUnescaped(s, k, i)
  }

  ghost predicate OnlyUnescaped(s: string, k: nat, i: nat) {
    i < k && UnescapedAt(s, i) && forall j | 0 <= j < k :: UnescapedAt(s, j) ==> j == i
  }

  lemma {:induction false} CountOne(s: string, k: nat)
    requires k <= |s|
    ensures Count(s, k) == 1 <==> OneUnescaped(s, k)
  {
    hide UnescapedAt;
    if k > 0 {
      CountZero(s, k - 1);
      CountOne(s, k - 1);
      if Count(s, k) == 1 {
        if Count(s, k - 1) == 0 {
          assert OnlyUnescaped(s, k, k - 1);
        } else {
          var i: nat :| OnlyUnescaped(s, k - 1, i);
          assert OnlyUnescaped(s, k, i);
        }
      }
      if OneUnescaped(s, k) {
        var i: nat :| OnlyUnescaped(s, k, i);
        if i < k - 1 {
          assert OnlyUnescaped(s, k - 1, i);
        }
      }
    }
  }

  /** A flag is accepted exactly when it has no '@' or exactly one unescaped '@'. */
  lemma AcceptedExactly(flag: string)
    ensures SplitFlag(flag).Flag? <==> '@' !in flag || OneUnescaped(flag, |flag|)
    ensures SplitFlag(flag).MissingFilter? <==>
            '@' in flag && forall i | 0 <= i < |flag| :: !UnescapedAt(flag, i)
  {
    hide UnescapedAt;
    GlueCount(Split(flag, '@'), "");
    CountZero(flag, |flag|);
    CountOne(flag, |flag|);
  }

  /** A flag whose only '@' is escaped has no filter, and is not accepted. */
  lemma EscapedOnly(a: string, b: string)
    requires '@' !in a && '@' !in b && !HasSuffix(a, "\\")
    ensures SplitFlag(a + "\\@" + b).MissingFilter?
  {
    hide HasSuffix, TrimSuffix, SplitFlag;
    var flag, k := a + "\\@" + b, |a| + 1;
    AcceptedExactly(flag);
    Backslashes(a);
    assert flag[k] == '@' && flag[k - 1] == '\\';
    assert Run(flag, k) == 1 by {
      assert |a| > 0 ==> flag[k - 2] == a[|a| - 1];
    }
    forall i | 0 <= i < |flag| && i != k ensures flag[i] != '@' {
      if i < |a| {
        assert flag[i] == a[i];
      } else if i > k {
        assert flag[i] == b[i - k - 1];
      }
    }
  }

  lemma EscapedOnlyExample()
    ensures SplitFlag("/data\\@home:/data").MissingFilter?
  {
    hide SplitFlag;
    assert "/data"[4] == 'a';
    Backslashes("/data");
    EscapedOnly("/data", "home:/data");
    assert "/data\\@home:/data" == "/data" + "\\@" + "home:/data";
  }

  // ---------- the forms of flags ----------

  /** A flag without '@' is a value without filters. */
  lemma NoFilters(flag: string)
    requires '@' !in flag
    ensures SplitFlag(flag) == Flag(flag, [])
  {}

  /**
   What can be written: one '@' ends the value and semicolons separate the filters; a backslash makes an '@'
   part of the value; and two backslashes at the end of the value stand for one.
   */
  lemma FlagForms(a: string, b: string, f: string, g: string)
    requires '@' !in a && '@' !in b && '@' !in f && '@' !in g && ';' !in f && ';' !in g
    requires a != "" ==> a[|a| - 1] != '\\'
    requires b != "" ==> b[|b| - 1] != '\\'
    ensures SplitFlag(a + "@" + f) == Flag(a, [f])
    ensures SplitFlag(a + "@" + f + ";" + g) == Flag(a, [f, g])
    ensures SplitFlag(a + "\\@" + b + "@" + f) == Flag(a + "@" + b, [f])
    ensures SplitFlag(a + "\\\\@" + f) == Flag(a + "\\", [f])
  {
    hide SplitFlag, HasSuffix, Plain, Escape;
    Backslashes(a);
    Backslashes(b);
    WrittenForm(a, [f], a, f);
    TwoFilters(f, g);
    WrittenForm(a, [f, g], a, f + ";" + g);
    assert a + "@" + f + ";" + g == a + "@" + (f + ";" + g);
    EscapedAt(a, b);
    WrittenForm(a + "@" + b, [f], a + "\\@" + b, f);
    EndingBackslash(a);
    EscapeNone(a + "\\");
    PlainText(a + "\\");
    OneText(f);
    SplitPrint(a + "\\", [f]);
    assert Print(a + "\\", [f]) == a + "\\\\@" + f by {
      EscapeNone(f);
      assert a + "\\" + "\\" + "@" + f == a + "\\\\@" + f;
    }
  }

  lemma PlainText(s: string)
    requires '@' !in s
    ensures Plain(s)
  {}

  lemma OneText(f: string)
    requires '@' !in f && ';' !in f
    ensures Join([f], ';') == f && Plain(f)
  {}

  lemma TwoFilters(f: string, g: string)
    requires '@' !in f && '@' !in g
    ensures Join([f, g], ';') == f + ";" + g && '@' !in f + ";" + g
  {
    assert [f, g][1..] == [g];
  }

  lemma EscapedAt(a: string, b: string)
    requires '@' !in a && '@' !in b && !HasSuffix(a, "\\") && !HasSuffix(b, "\\")
    ensures Escape(a + "@" + b) == a + "\\@" + b
    ensures Plain(a + "@" + b) && !HasSuffix(a + "@" + b, "\\")
  {
    hide HasSuffix, Escape;
    EscapeCons(a, b);
    EscapeNone(b);
    FirstAtPlain(a, b);
    Backslashes(a);
    var s := a + "@" + b;
    forall i | 0 <= i < |s| && i != |a| ensures s[i] != '@' {
      if i < |a| {
        assert s[i] == a[i];
      } else {
        assert s[i] == b[i - |a| - 1];
      }
    }
  }

  lemma EndingBackslash(a: string)
    requires '@' !in a
    ensures HasSuffix(a + "\\", "\\") && '@' !in a + "\\"
  {
    hide HasSuffix;
    Backslashes(a + "\\");
  }

  /** A value that needs no guard, in its escaped form, and filters without '@'. */
  lemma WrittenForm(value: string, filters: seq<string>, escaped: string, text: string)
    requires Escape(value) == escaped || (escaped == value && '@' !in value)
    requires Plain(value) || '@' !in value
    requires !HasSuffix(value, "\\") && filters != [] && Join(filters, ';') == text && '@' !in text
    requires forall i | 0 <= i < |filters| :: ';' !in filters[i]
    ensures SplitFlag(escaped + "@" + text) == Flag(value, filters)
  {
    hide SplitFlag, HasSuffix, Escape;
    if '@' !in value {
      EscapeNone(value);
    }
    EscapeNone(text);
    SplitPrint(value, filters);
    assert Print(value, filters) == escaped + "" + "@" + text;
    assert escaped + "" == escaped;
  }
}
