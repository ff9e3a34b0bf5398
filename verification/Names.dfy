/** Cluster names as host names, and the node names derived from them. */
module Names {
  import opened Regex
  import opened Strings
  import opened Types

  const MAX_CLUSTER_NAME := 32
  const PREFIX := "k3d"

  const LABEL := Alt(One(Alnum), Cat(One(Alnum), Cat(Star(One(AlnumHyphen)), One(Alnum))))
  const HOSTNAME := Cat(Star(Cat(LABEL, One(Lit('.')))), LABEL)

  /** A label of section 2.1 of RFC 1123: letters, digits and inner hyphens. */
  predicate IsLabel(s: string) {
    && s != ""
    && IsAlnum(s[0]) && IsAlnum(s[|s| - 1])
    && forall i | 0 <= i < |s| :: IsAlnum(s[i]) || s[i] == '-'
  }

  predicate AllLabels(pieces: seq<string>) {
    forall i | 0 <= i < |pieces| :: IsLabel(pieces[i])
  }

  /** Labels separated by dots. */
  predicate IsHostname(s: string) { AllLabels(Split(s, '.')) }

  lemma LabelMeaning(s: string)
    ensures In(LABEL, s) <==> IsLabel(s)
  {
    hide In;
    var end, middle := One(Alnum), Star(One(AlnumHyphen));
    AltMeaning(end, Cat(end, Cat(middle, end)), s);
    OneMeaning(Alnum, s);
    if In(Cat(end, Cat(middle, end)), s) {
      var x, rest := CatElim(end, Cat(middle, end), s);
      var y, z := CatElim(middle, end, rest);
      OneMeaning(Alnum, x);
      StarOneMeaning(AlnumHyphen, y);
      OneMeaning(Alnum, z);
    }
    if IsLabel(s) && |s| > 1 {
      LongLabel(s);
    }
  }

  lemma LongLabel(s: string)
    requires IsLabel(s) && |s| > 1
    ensures In(Cat(One(Alnum), Cat(Star(One(AlnumHyphen)), One(Alnum))), s)
  {
    hide In;
    var n := |s|;
    var x, y, z := [s[0]], s[1..n - 1], [s[n - 1]];
    OneMeaning(Alnum, x);
    assert forall i | 0 <= i < |y| :: y[i] == s[i + 1];
    StarOneMeaning(AlnumHyphen, y);
    OneMeaning(Alnum, z);
    Cat3Intro(One(Alnum), Star(One(AlnumHyphen)), One(Alnum), x, y, z);
    assert s == x + y + z;
  }

  /** A label and a dot. */
  lemma DottedMeaning(s: string)
    ensures In(Cat(LABEL, One(Lit('.'))), s) <==> s != "" && s[|s| - 1] == '.' && IsLabel(s[..|s| - 1])
  {
    hide In, IsLabel;
    if In(Cat(LABEL, One(Lit('.'))), s) {
      var x, y := CatElim(LABEL, One(Lit('.')), s);
      LabelMeaning(x);
      OneMeaning(Lit('.'), y);
      assert s[..|s| - 1] == x;
    }
    if s != "" && s[|s| - 1] == '.' && IsLabel(s[..|s| - 1]) {
      LabelMeaning(s[..|s| - 1]);
      OneMeaning(Lit('.'), s[|s| - 1..]);
      CatIntro(LABEL, One(Lit('.')), s[..|s| - 1], s[|s| - 1..]);
      assert s == s[..|s| - 1] + s[|s| - 1..];
    }
  }

  lemma LabelHasNoDot(s: string)
    requires IsLabel(s)
    ensures '.' !in s
  {}

  /** Dotted labels in front of a host name make a host name. */
  lemma {:induction false} DottedHostname(front: string, last: string)
    requires In(Star(Cat(LABEL, One(Lit('.')))), front) && IsHostname(last)
    ensures IsHostname(front + last)
    decreases |front|
  {
    hide In, IsLabel, Split, Join;
    if front == "" {
      assert front + last == last;
    } else {
      var x, rest := StarElim(Cat(LABEL, One(Lit('.'))), front);
      DottedMeaning(x);
      DottedHostname(rest, last);
      var word := x[..|x| - 1];
      LabelHasNoDot(word);
      SplitCons(word, rest + last, '.');
      assert front + last == word + ['.'] + (rest + last);
    }
  }

  /** Every host name is dotted labels followed by a label. */
  lemma {:induction false} HostnameDotted(pieces: seq<string>)
    requires |pieces| >= 1 && AllLabels(pieces)
    ensures In(HOSTNAME, Join(pieces, '.'))
  {
    hide In, IsLabel;
    var dotted := Cat(LABEL, One(Lit('.')));
    var last := pieces[|pieces| - 1];
    var front := HostnameFront(pieces);
    LabelMeaning(last);
    CatIntro(Star(dotted), LABEL, front, last);
  }

  lemma {:induction false} HostnameFront(pieces: seq<string>) returns (front: string)
    requires |pieces| >= 1 && AllLabels(pieces)
    ensures In(Star(Cat(LABEL, One(Lit('.')))), front)
    ensures Join(pieces, '.') == front + pieces[|pieces| - 1]
  {
    hide In, IsLabel;
    var dotted := Cat(LABEL, One(Lit('.')));
    if |pieces| == 1 {
      front := "";
      StarNone(dotted);
      assert "" + pieces[0] == pieces[0];
    } else {
      var rest := HostnameFront(pieces[1..]);
      var x := pieces[0] + ".";
      assert x[..|x| - 1] == pieces[0];
      DottedMeaning(x);
      StarIntro(dotted, x, rest);
      front := x + rest;
    }
  }

  /** The pattern accepts exactly the dot-separated sequences of labels. */
  lemma HostnameMeaning(s: string)
    ensures In(HOSTNAME, s) <==> IsHostname(s)
  {
    hide In, IsLabel, Split, Join;
    if In(HOSTNAME, s) {
      var front, last := CatElim(Star(Cat(LABEL, One(Lit('.')))), LABEL, s);
      LabelMeaning(last);
      LabelHasNoDot(last);
      SplitNone(last, '.');
      DottedHostname(front, last);
    }
    if IsHostname(s) {
      HostnameDotted(Split(s, '.'));
    }
  }

  /**
   Host names, character by character: letters, digits, hyphens and dots; the first and the last character are
   letters or digits, and so are those next to a dot.
   */
  ghost predicate WellSpelled(s: string) {
    var word := (c: char) => 'a' <= c <= 'z' || 'A' <= c <= 'Z' || '0' <= c <= '9';
    && s != "" && word(s[0]) && word(s[|s| - 1])
    && (forall i | 0 <= i < |s| :: word(s[i]) || s[i] == '-' || s[i] == '.')
    && (forall i | 0 < i < |s| - 1 && s[i] == '.' :: word(s[i - 1]) && word(s[i + 1]))
  }

  lemma HostnameSpelling(s: string)
    ensures In(HOSTNAME, s) <==> WellSpelled(s)
  {
    hide In, WellSpelled, AllLabels;
    HostnameMeaning(s);
    LabelsSpelled(Split(s, '.'));
  }

  lemma {:induction false} LabelsSpelled(pieces: seq<string>)
    requires pieces != [] && forall i | 0 <= i < |pieces| :: '.' !in pieces[i]
    ensures AllLabels(pieces) <==> WellSpelled(Join(pieces, '.'))
  {
    hide WellSpelled, IsLabel;
    LabelSpelled(pieces[0]);
    if |pieces| > 1 {
      LabelsSpelled(pieces[1..]);
      AfterDot(pieces[0], Join(pieces[1..], '.'));
      assert AllLabels(pieces) <==> IsLabel(pieces[0]) && AllLabels(pieces[1..]) by {
        assert pieces == [pieces[0]] + pieces[1..];
      }
      assert Join(pieces, '.') == pieces[0] + "." + Join(pieces[1..], '.');
    }
  }

  lemma LabelSpelled(s: string)
    requires '.' !in s
    ensures IsLabel(s) <==> WellSpelled(s)
  {}

  lemma AfterDot(a: string, b: string)
    requires '.' !in a
    ensures WellSpelled(a + "." + b) <==> IsLabel(a) && WellSpelled(b)
  {
    var s, n := a + "." + b, |a|;
    assert s[n] == '.';
    assert forall i | 0 <= i < n :: s[i] == a[i];
    assert forall i | 0 <= i < |b| :: s[n + 1 + i] == b[i];
    if WellSpelled(s) {
      AfterDotParts(a, b);
    }
    if IsLabel(a) && WellSpelled(b) {
      AfterDotWhole(a, b);
    }
  }

  lemma AfterDotParts(a: string, b: string)
    requires '.' !in a && WellSpelled(a + "." + b)
    ensures IsLabel(a) && WellSpelled(b)
  {
    var s, n := a + "." + b, |a|;
    assert s[n] == '.' && s[|s| - 1] == if b == "" then '.' else b[|b| - 1];
    assert s[0] == if a == "" then '.' else a[0];
    assert forall i | 0 <= i < n :: a[i] == s[i];
    assert s[n - 1] == a[n - 1] && s[n + 1] == b[0];
    SpelledAfter(s, n, b);
  }

  lemma SpelledAfter(s: string, n: nat, b: string)
    requires n < |s| && WellSpelled(s) && s[n + 1..] == b && b != ""
    requires IsAlnum(b[0])
    ensures WellSpelled(b)
  {
    assert forall i | 0 <= i < |b| :: b[i] == s[n + 1 + i];
  }

  lemma AfterDotWhole(a: string, b: string)
    requires '.' !in a && IsLabel(a) && WellSpelled(b)
    ensures WellSpelled(a + "." + b)
  {
    var s, n := a + "." + b, |a|;
    assert s[n] == '.' && s[0] == a[0] && s[|s| - 1] == b[|b| - 1] && s[n - 1] == a[n - 1] && s[n + 1] == b[0];
    forall i | 0 <= i < |s| ensures s[i] == if i < n then a[i] else if i == n then '.' else b[i - n - 1] {}
  }

  // ---------- cluster names ----------

  datatype Verdict = Accepted | NoName | NotAHostname | TooLong

  function ValidateHostname(name: string): (v: Verdict)
    ensures v.Accepted? <==> In(HOSTNAME, name)
  {
    HostnameMeaning(name);
    if |name| == 0 then NoName
    else if !IsHostname(name) then NotAHostname
    else Accepted
  }

  function CheckName(name: string): (v: Verdict)
    ensures v.Accepted? <==> In(HOSTNAME, name) && |name| <= MAX_CLUSTER_NAME
  {
    if !ValidateHostname(name).Accepted? then ValidateHostname(name)
    else if |name| > MAX_CLUSTER_NAME then TooLong
    else Accepted
  }

  /** The verdict on a cluster name: it is missing, no host name, longer than 32 characters, or accepted. */
  lemma CheckNameMeaning(name: string)
    ensures CheckName(name) ==
            if name == "" then NoName
            else if !WellSpelled(name) then NotAHostname
            else if |name| > 32 then TooLong
            else Accepted
  {
    hide In, WellSpelled;
    HostnameSpelling(name);
    HostnameMeaning(name);
  }

  // ---------- node names ----------

  function RoleName(role: Role): string {
    match role
    case Server => "server"
    case Agent => "agent"
    case LoadBalancer => "loadbalancer"
    case Registry => "registry"
    case NoRole => "noRole"
  }

  function GenerateNodeName(cluster: string, role: Role, index: nat): string {
    PREFIX + "-" + cluster + "-" + RoleName(role) + "-" + Decimal(index)
  }

  function LoadBalancerName(cluster: string): string {
    PREFIX + "-" + cluster + "-serverlb"
  }

  /** The names of nodes, letter by letter. */
  lemma NodeNames(cluster: string)
    ensures GenerateNodeName(cluster, Server, 0) == "k3d-" + cluster + "-server-0"
    ensures GenerateNodeName(cluster, Agent, 12) == "k3d-" + cluster + "-agent-12"
    ensures LoadBalancerName(cluster) == "k3d-" + cluster + "-serverlb"
    ensures [RoleName(LoadBalancer), RoleName(Registry), RoleName(NoRole)] == ["loadbalancer", "registry", "noRole"]
  {
    assert Decimal(0) == "0";
    assert Decimal(12) == Decimal(1) + "2";
    hide Decimal;
    InOnePiece(cluster, "server", "0");
    InOnePiece(cluster, "agent", "12");
    assert "-" + "server" + "-" + "0" == "-server-0" && "-" + "agent" + "-" + "12" == "-agent-12";
    assert PREFIX + "-" == "k3d-";
  }

  lemma InOnePiece(cluster: string, role: string, index: string)
    ensures PREFIX + "-" + cluster + "-" + role + "-" + index == PREFIX + "-" + cluster + ("-" + role + "-" + index)
  {}

  /** Text without dots or hyphens at the outer ends keeps a host name a host name. */
  lemma WrapHostname(before: string, name: string, after: string)
    requires IsHostname(name)
    requires IsLabel(before + "x") && IsLabel("x" + after)
    ensures IsHostname(before + name + after)
  {
    hide Split, Join;
    var pieces := Split(name, '.');
    LabelHasNoDot(before + "x");
    assert '.' !in before by { assert forall i | 0 <= i < |before| :: before[i] == (before + "x")[i]; }
    LabelHasNoDot("x" + after);
    assert '.' !in after by { assert forall i | 0 <= i < |after| :: after[i] == ("x" + after)[1 + i]; }
    SplitPrefix(before, name, '.');
    SplitSuffix(before + name, after, '.');
    var first := [before + pieces[0]] + pieces[1..];
    forall i | 0 <= i < |first| ensures IsLabel(first[i]) {
      if i == 0 {
        WrapLabel(before, pieces[0], "");
        assert before + pieces[0] + "" == before + pieces[0];
      }
    }
    WrapLabel("", first[|first| - 1], after);
    assert "" + first[|first| - 1] + after == first[|first| - 1] + after;
  }

  lemma WrapLabel(before: string, word: string, after: string)
    requires IsLabel(word)
    requires before == "" || IsLabel(before + "x")
    requires after == "" || IsLabel("x" + after)
    ensures IsLabel(before + word + after)
  {
    var s := before + word + after;
    forall i | 0 <= i < |s| ensures IsAlnum(s[i]) || s[i] == '-' {
      if i < |before| {
        assert s[i] == (before + "x")[i];
      } else if i < |before| + |word| {
        assert s[i] == word[i - |before|];
      } else {
        assert s[i] == ("x" + after)[1 + i - |before| - |word|];
      }
    }
    if before != "" {
      assert s[0] == (before + "x")[0];
    }
    if after != "" {
      assert s[|s| - 1] == ("x" + after)[|after|];
    }
  }

  lemma RoleNameIsWord(role: Role)
    ensures RoleName(role) != "" && AllAlpha(RoleName(role))
  {}

  /** Every node name of an accepted cluster name is a host name too. */
  lemma NodeNameAccepted(cluster: string, role: Role, index: nat)
    requires CheckName(cluster).Accepted?
    ensures ValidateHostname(GenerateNodeName(cluster, role, index)).Accepted?
  {
    hide Split, Decimal, RoleName, In;
    HostnameMeaning(cluster);
    var after := "-" + RoleName(role) + "-" + Decimal(index);
    RoleNameIsWord(role);
    assert IsLabel("x" + after) by {
      var s := "x" + after;
      assert s[|s| - 1] == Decimal(index)[|Decimal(index)| - 1];
      forall i | 0 <= i < |s| ensures IsAlnum(s[i]) || s[i] == '-' {
        if 2 <= i < 2 + |RoleName(role)| {
          assert s[i] == RoleName(role)[i - 2];
        } else if i > 2 + |RoleName(role)| {
          assert s[i] == Decimal(index)[i - 3 - |RoleName(role)|];
        }
      }
    }
    assert IsLabel("k3d-" + "x");
    WrapHostname("k3d-", cluster, after);
    assert GenerateNodeName(cluster, role, index) == "k3d-" + cluster + after;
    HostnameMeaning(GenerateNodeName(cluster, role, index));
  }

  /** Server and agent names stay within 64 characters for indices of at most 20 digits. */
  lemma NodeNameLength(cluster: string, role: Role, index: nat)
    requires CheckName(cluster).Accepted?
    requires role == Server || role == Agent
    requires index < Pow10(20)
    ensures |GenerateNodeName(cluster, role, index)| <= 64
  {
    hide Decimal, Pow10;
    DecimalLength(index, 20);
    assert |PREFIX| == 3 && |RoleName(role)| <= 6;
  }

  /** The part after the last hyphen is determined. */
  lemma LastHyphen(x: string, d: string, x': string, d': string)
    requires '-' !in d && '-' !in d'
    requires x + "-" + d == x' + "-" + d'
    ensures x == x' && d == d'
  {
    var s, s' := x + "-" + d, x' + "-" + d';
    assert s[|x|] == '-' && s'[|x'|] == '-';
    assert forall k | |x| < k < |s| :: s[k] == d[k - |x| - 1];
    assert forall k | |x'| < k < |s'| :: s'[k] == d'[k - |x'| - 1];
    assert |x| == |x'|;
    assert x == s[..|x|] && x' == s'[..|x'|];
    assert d == s[|x| + 1..] && d' == s'[|x'| + 1..];
  }

  /** A node name determines the cluster, the role and the index. */
  lemma NodeNameInjective(c: string, r: Role, i: nat, c': string, r': Role, i': nat)
    requires GenerateNodeName(c, r, i) == GenerateNodeName(c', r', i')
    ensures c == c' && r == r' && i == i'
  {
    hide Decimal;
    var x, x' := PREFIX + "-" + c + "-" + RoleName(r), PREFIX + "-" + c' + "-" + RoleName(r');
    LastHyphen(x, Decimal(i), x', Decimal(i'));
    DecimalInjective(i, i');
    LastHyphen(PREFIX + "-" + c, RoleName(r), PREFIX + "-" + c', RoleName(r'));
    assert c == (PREFIX + "-" + c)[4..] && c' == (PREFIX + "-" + c')[4..];
  }

  /** The load balancer's name is no node's name. */
  lemma LoadBalancerNameApart(c: string, c': string, r: Role, i: nat)
    ensures LoadBalancerName(c) != GenerateNodeName(c', r, i)
  {
    hide Decimal;
    var lb, node, digits := LoadBalancerName(c), GenerateNodeName(c', r, i), Decimal(i);
    assert lb[|lb| - 1] == 'b';
    assert node[|node| - 1] == digits[|digits| - 1];
  }
}
