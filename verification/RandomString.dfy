/**
 Random strings of letters: every draw of 63 random bits is cut into ten groups of six bits, and
 each group below the number of letters gives a letter.
 */
module RandomString {

  const LETTERS := "abcdefghijklmnopqrstuvwxyzABCDEFGHIJKLMNOPQRSTUVWXYZ"
  const GROUP_VALUES := 64
  const GROUPS_PER_DRAW := 10

  /** A random source: an endless stream of draws, and how many were taken. */
  class Source {
    const stream: nat -> nat
    var drawn: nat

    constructor (stream: nat -> nat)
      ensures this.stream == stream && drawn == 0
    {
      this.stream, drawn := stream, 0;
    }

    method Int63() returns (x: nat)
      modifies this
      ensures x == stream(old(drawn)) && drawn == old(drawn) + 1
    {
      x, drawn := stream(drawn), drawn + 1;
    }
  }

  /**
   The numbers fit together: six bits have 64 values, ten groups of them and no more fit into 63 bits, and
   the letters are all letters, each once, fewer than the values of a group.
   */
  lemma GroupsFit()
    ensures GROUP_VALUES == 2 * 2 * 2 * 2 * 2 * 2
    ensures 6 * GROUPS_PER_DRAW <= 63 < 6 * (GROUPS_PER_DRAW + 1)
    ensures |LETTERS| == 52 <= GROUP_VALUES
    ensures LETTERS == "abcdefghijklmnopqrstuvwxyzABCDEFGHIJKLMNOPQRSTUVWXYZ"
  {}

  // ---------- groups ----------

  /** A number shifted right by `k` groups. */
  function Shifted(x: nat, k: nat): nat {
    if k == 0 then x else Shifted(x, k - 1) / GROUP_VALUES
  }

  /** The `g`-th group of a stream read from draw `start` on, ten groups to a draw. */
  function Group(stream: nat -> nat, start: nat, g: nat): nat {
    Shifted(stream(start + g / GROUPS_PER_DRAW), g % GROUPS_PER_DRAW) % GROUP_VALUES
  }

  predicate Hit(stream: nat -> nat, start: nat, g: nat) {
    Group(stream, start, g) < |LETTERS|
  }

  function Letter(stream: nat -> nat, start: nat, g: nat): char
    requires Hit(stream, start, g)
  {
    LETTERS[Group(stream, start, g)]
  }

  /** The groups of a draw, from the low bits up; one below 52 is accepted and gives the letter of that number. */
  lemma GroupMeaning(stream: nat -> nat, start: nat, q: nat, r: nat)
    requires r < 10
    ensures var g := 10 * q + r;
            && Group(stream, start, g) == Shifted(stream(start + q), r) % 64
            && (Hit(stream, start, g) <==> Group(stream, start, g) < 52)
            && (Hit(stream, start, g) ==>
                  Letter(stream, start, g) ==
                  "abcdefghijklmnopqrstuvwxyzABCDEFGHIJKLMNOPQRSTUVWXYZ"[Group(stream, start, g)])
    ensures Shifted(stream(start + q), r) == stream(start + q) / Power(r)
  {
    assert (10 * q + r) / 10 == q && (10 * q + r) % 10 == r;
    hide Shifted;
    ShiftedIs(stream(start + q), r);
  }

  /** Shifting right by groups of six bits divides by a power of 64. */
  lemma {:induction false} ShiftedIs(x: nat, k: nat)
    ensures Power(0) == 1 && Power(1) == 64
    ensures Shifted(x, k) == x / Power(k)
  {
    hide LowGroups;
    GroupsAreDigits(x, k);
    var p, low := Power(k), LowGroups(x, k);
    Quotient(x, p, Shifted(x, k), low);
  }

  lemma Quotient(x: nat, p: nat, q: nat, low: nat)
    requires x == low + p * q && low < p
    ensures q == x / p
  {
    var r := x / p;
    assert x == p * r + x % p;
    if q < r {
      Monotone(p, q + 1, r);
    } else if r < q {
      Monotone(p, r + 1, q);
    }
  }

  lemma Monotone(p: nat, a: nat, b: nat)
    requires a <= b
    ensures p * a <= p * b
  {}

  /** The letters of the accepted ones among the first `m` groups. */
  function Accepted(stream: nat -> nat, start: nat, m: nat): string {
    if m == 0 then ""
    else
      var front := Accepted(stream, start, m - 1);
      if Hit(stream, start, m - 1) then front + [Letter(stream, start, m - 1)] else front
  }

  /** The indices of the accepted groups. */
  function Positions(stream: nat -> nat, start: nat, m: nat): seq<nat> {
    if m == 0 then []
    else
      var front := Positions(stream, start, m - 1);
      if Hit(stream, start, m - 1) then front + [m - 1] else front
  }

  /**
   The accepted letters are those of the groups below the number of letters: all of them, each
   once, in ascending order.
   */
  lemma {:induction false} AcceptedMeaning(stream: nat -> nat, start: nat, m: nat)
    ensures var ps, letters := Positions(stream, start, m), Accepted(stream, start, m);
            && |letters| == |ps|
            && (forall i, j | 0 <= i < j < |ps| :: ps[i] < ps[j])
            && (forall g: nat :: g in ps <==> g < m && Hit(stream, start, g))
            && (forall i | 0 <= i < |ps| :: Hit(stream, start, ps[i]) && letters[i] == Letter(stream, start, ps[i]))
  {
    hide Hit, Letter;
    if m > 0 {
      AcceptedMeaning(stream, start, m - 1);
    }
  }

  /** The groups of a draw are its digits to the base 64, so no bit belongs to two of them. */
  lemma {:induction false} GroupsAreDigits(x: nat, k: nat)
    ensures x == LowGroups(x, k) + Power(k) * Shifted(x, k)
    ensures LowGroups(x, k) < Power(k)
  {
    if k > 0 {
      GroupsAreDigits(x, k - 1);
      var s, p := Shifted(x, k - 1), Power(k - 1);
      calc {
        p * s;
        { assert s == GROUP_VALUES * (s / GROUP_VALUES) + s % GROUP_VALUES; }
        p * (GROUP_VALUES * (s / GROUP_VALUES) + s % GROUP_VALUES);
        { Distribute(p, s / GROUP_VALUES, s % GROUP_VALUES); }
        Power(k) * (s / GROUP_VALUES) + s % GROUP_VALUES * p;
      }
      AtMost(s % GROUP_VALUES, p);
    }
  }

  lemma Distribute(p: nat, q: nat, r: nat)
    ensures p * (GROUP_VALUES * q + r) == GROUP_VALUES * p * q + r * p
  {}

  lemma AtMost(r: nat, p: nat)
    requires r < GROUP_VALUES
    ensures r * p <= (GROUP_VALUES - 1) * p
  {}

  function Power(k: nat): (p: nat)
    ensures p > 0
  {
    if k == 0 then 1 else GROUP_VALUES * Power(k - 1)
  }

  function LowGroups(x: nat, k: nat): nat {
    if k == 0 then 0 else LowGroups(x, k - 1) + Shifted(x, k - 1) % GROUP_VALUES * Power(k - 1)
  }

  // ---------- the first n letters ----------

  lemma {:induction false} AcceptedGrows(stream: nat -> nat, start: nat, m: nat, m': nat)
    requires m <= m'
    ensures Accepted(stream, start, m) <= Accepted(stream, start, m')
  {
    hide Group;
    if m < m' {
      AcceptedGrows(stream, start, m, m' - 1);
    }
  }

  /** A group gives one letter or none. */
  lemma NextLetter(stream: nat -> nat, start: nat, m: nat)
    requires m > 0
    ensures |Accepted(stream, start, m)| ==
            |Accepted(stream, start, m - 1)| + if Hit(stream, start, m - 1) then 1 else 0
  {
    hide Group, Letter;
  }

  /** The number of groups that must be read for `n` letters; `enough` groups suffice. */
  function Needed(stream: nat -> nat, start: nat, n: nat, enough: nat): nat
    decreases enough
  {
    if enough == 0 || (|Accepted(stream, start, enough)| == n && Hit(stream, start, enough - 1)) then enough
    else if n == 0 then 0
    else Needed(stream, start, n, enough - 1)
  }

  /** So many groups give `n` letters, and the last of them gives one. */
  lemma {:induction false} NeededMeaning(stream: nat -> nat, start: nat, n: nat, enough: nat)
    requires |Accepted(stream, start, enough)| >= n
    ensures var m := Needed(stream, start, n, enough);
            m <= enough && |Accepted(stream, start, m)| == n && (m > 0 ==> Hit(stream, start, m - 1))
    decreases enough
  {
    hide Accepted, Hit;
    NothingRead(stream, start);
    if enough > 0 && n > 0 {
      NextLetter(stream, start, enough);
      if !(|Accepted(stream, start, enough)| == n && Hit(stream, start, enough - 1)) {
        NeededMeaning(stream, start, n, enough - 1);
      }
    }
  }

  /**
   The result is the letters of the first `n` accepted groups from the present draw on.  One draw
   is always made, and then as many as the groups that were looked at need; what is left of the
   last draw is lost.  `enough` bounds the number of groups looked at.
   */
  method GenerateRandomString(source: Source, n: nat, ghost enough: nat) returns (s: string)
    requires |Accepted(source.stream, source.drawn, enough)| >= n
    modifies source
    ensures |s| == n
    ensures s == Accepted(source.stream, old(source.drawn), enough)[..n]
    ensures var m := Needed(source.stream, old(source.drawn), n, enough);
            source.drawn == old(source.drawn) + if m == 0 then 1 else (m + GROUPS_PER_DRAW - 1) / GROUPS_PER_DRAW
  {
    hide Shifted, Group, Needed, Accepted, Hit, Letter;
    NothingRead(source.stream, source.drawn);
    ghost var start, stream := source.drawn, source.stream;
    ghost var g, draws := 0, 1;
    s := "";
    var i, remain := n - 1, GROUPS_PER_DRAW;
    var cache := source.Int63();
    ShiftedNone(cache);
    while i >= 0
      invariant -1 <= i < n && i == n - 1 - |s| && 0 <= remain <= GROUPS_PER_DRAW
      invariant draws >= 1 && source.drawn == start + draws
      invariant g == GROUPS_PER_DRAW * (draws - 1) + (GROUPS_PER_DRAW - remain)
      invariant cache == Shifted(stream(start + draws - 1), GROUPS_PER_DRAW - remain)
      invariant s == Accepted(stream, start, g)
      invariant g == 0 || i >= 0 || Hit(stream, start, g - 1)
      invariant g > 0 || (draws == 1 && s == "")
      invariant draws > 1 ==> g > GROUPS_PER_DRAW * (draws - 1)
      invariant i >= 0 ==> g < enough
      decreases enough - g
    {
      if remain == 0 {
        cache := source.Int63();
        remain := GROUPS_PER_DRAW;
        draws := draws + 1;
        ShiftedNone(cache);
      }
      NextGroup(stream, start, draws, remain, g, cache);
      var idx := cache % GROUP_VALUES;
      if idx < |LETTERS| {
        s := s + [LETTERS[idx]];
        i := i - 1;
      }
      cache := cache / GROUP_VALUES;
      remain := remain - 1;
      g := g + 1;
      StillShort(stream, start, g, enough, n, i, s);
    }
    StoppedAt(stream, start, n, enough, g);
  }

  lemma ShiftedNone(x: nat)
    ensures Shifted(x, 0) == x
  {}

  lemma NothingRead(stream: nat -> nat, start: nat)
    ensures Accepted(stream, start, 0) == ""
  {}

  /** The low bits of the cache are the next group; shifting them out leaves the one after it. */
  lemma NextGroup(stream: nat -> nat, start: nat, draws: nat, remain: nat, g: nat, cache: nat)
    requires draws >= 1 && 0 < remain <= GROUPS_PER_DRAW
    requires g == GROUPS_PER_DRAW * (draws - 1) + (GROUPS_PER_DRAW - remain)
    requires cache == Shifted(stream(start + draws - 1), GROUPS_PER_DRAW - remain)
    ensures Hit(stream, start, g) <==> cache % GROUP_VALUES < |LETTERS|
    ensures Accepted(stream, start, g + 1) ==
            Accepted(stream, start, g) + if Hit(stream, start, g) then [LETTERS[cache % GROUP_VALUES]] else []
    ensures cache / GROUP_VALUES == Shifted(stream(start + draws - 1), GROUPS_PER_DRAW - (remain - 1))
  {
    assert g / GROUPS_PER_DRAW == draws - 1 && g % GROUPS_PER_DRAW == GROUPS_PER_DRAW - remain;
    assert Group(stream, start, g) == cache % GROUP_VALUES;
    hide Group;
  }

  /** While letters are missing, not all of the groups that suffice have been read. */
  lemma StillShort(stream: nat -> nat, start: nat, g: nat, enough: nat, n: nat, i: int, s: string)
    requires s == Accepted(stream, start, g) && i == n - 1 - |s|
    requires |Accepted(stream, start, enough)| >= n
    ensures i >= 0 ==> g < enough
  {
    if enough <= g {
      AcceptedGrows(stream, start, enough, g);
    }
  }

  lemma StoppedAt(stream: nat -> nat, start: nat, n: nat, enough: nat, g: nat)
    requires |Accepted(stream, start, enough)| >= n
    requires |Accepted(stream, start, g)| == n && (g == 0 || Hit(stream, start, g - 1))
    ensures Accepted(stream, start, enough)[..n] == Accepted(stream, start, g)
    ensures Needed(stream, start, n, enough) == g
  {
    hide Group, Needed;
    NeededMeaning(stream, start, n, enough);
    var m := Needed(stream, start, n, enough);
    HitsAreLast(stream, start, m, g);
    AcceptedGrows(stream, start, m, enough);
  }

  lemma EndsInLetter(stream: nat -> nat, start: nat, a: nat, b: nat)
    requires a < b && Hit(stream, start, b - 1)
    ensures |Accepted(stream, start, a)| < |Accepted(stream, start, b)|
  {
    hide Hit, Letter;
    AcceptedGrows(stream, start, a, b - 1);
  }

  /** Two stretches with the same number of letters that end in an accepted group are the same. */
  lemma HitsAreLast(stream: nat -> nat, start: nat, a: nat, b: nat)
    requires |Accepted(stream, start, a)| == |Accepted(stream, start, b)|
    requires a == 0 || Hit(stream, start, a - 1)
    requires b == 0 || Hit(stream, start, b - 1)
    ensures a == b
  {
    hide Hit, Accepted;
    if a < b {
      EndsInLetter(stream, start, a, b);
    } else if b < a {
      EndsInLetter(stream, start, b, a);
    }
  }

  ghost predicate HitWithin(stream: nat -> nat, start: nat, g: nat, r: nat) {
    exists h: nat :: g <= h <= g + r && Hit(stream, start, h)
  }

  /** If never more than `r` groups in a row are rejected, `(r + 1) * n` groups give `n` letters. */
  lemma {:induction false} BoundedRejections(stream: nat -> nat, start: nat, r: nat, n: nat)
    requires forall g: nat :: HitWithin(stream, start, g, r)
    ensures |Accepted(stream, start, (r + 1) * n)| >= n
  {
    hide Hit, Letter;
    if n > 0 {
      BoundedRejections(stream, start, r, n - 1);
      var g := (r + 1) * (n - 1);
      assert g + (r + 1) == (r + 1) * n;
      assert HitWithin(stream, start, g, r);
      var h: nat :| g <= h <= g + r && Hit(stream, start, h);
      AcceptedGrows(stream, start, g, h);
      AcceptedGrows(stream, start, h + 1, g + r + 1);
    }
  }
}
