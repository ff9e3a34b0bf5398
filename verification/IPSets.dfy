/** Sets of IP addresses as lists of ranges: what k3d uses of the package `netipx`. */
module IPSets {

  /** Addresses are numbers; `width` is 32 or 128 bits. */
  type Addr = int

  datatype Prefix = Prefix(addr: Addr, bits: nat, width: nat)

  datatype Range = Range(from: Addr, to: Addr)

  function Pow2(n: nat): (r: nat)
    ensures r > 0
  {
    if n == 0 then 1 else 2 * Pow2(n - 1)
  }

  ghost predicate ValidPrefix(p: Prefix) {
    p.bits <= p.width && 0 <= p.addr < Pow2(p.width)
  }

  function Size(p: Prefix): nat
    requires p.bits <= p.width
  {
    Pow2(p.width - p.bits)
  }

  function First(p: Prefix): Addr
    requires p.bits <= p.width
  {
    p.addr - p.addr % Size(p)
  }

  function Last(p: Prefix): Addr
    requires p.bits <= p.width
  {
    First(p) + Size(p) - 1
  }

  predicate In(x: Addr, rs: seq<Range>) {
    |rs| > 0 && (rs[0].from <= x <= rs[0].to || In(x, rs[1..]))
  }

  /** Non-empty ranges in ascending order, not touching each other. */
  predicate Normal(rs: seq<Range>) {
    |rs| > 0 ==>
      && rs[0].from <= rs[0].to
      && (|rs| > 1 ==> rs[0].to + 1 < rs[1].from)
      && Normal(rs[1..])
  }

  function Without(rs: seq<Range>, a: Addr): seq<Range> {
    if |rs| == 0 || a < rs[0].from then rs
    else if rs[0].to < a then [rs[0]] + Without(rs[1..], a)
    else
      (if rs[0].from < a then [Range(rs[0].from, a - 1)] else []) +
      (if a < rs[0].to then [Range(a + 1, rs[0].to)] else []) + rs[1..]
  }

  /** The first range begins with the least address of all. */
  lemma {:induction false} FirstIsLeast(rs: seq<Range>, x: Addr)
    requires Normal(rs) && In(x, rs)
    ensures rs[0].from <= x
  {
    if !(rs[0].from <= x <= rs[0].to) {
      FirstIsLeast(rs[1..], x);
    }
  }

  /** Removing an address takes out that address and nothing else. */
  lemma {:induction false} WithoutMeaning(rs: seq<Range>, a: Addr)
    requires Normal(rs)
    ensures Normal(Without(rs, a))
    ensures forall x :: In(x, Without(rs, a)) <==> In(x, rs) && x != a
    ensures |rs| > 0 && |Without(rs, a)| > 0 ==> rs[0].from <= Without(rs, a)[0].from
  {
    if |rs| == 0 {
    } else if a < rs[0].from {
      forall x | In(x, rs) ensures x != a {
        FirstIsLeast(rs, x);
      }
    } else if rs[0].to < a {
      WithoutMeaning(rs[1..], a);
      var tail := Without(rs[1..], a);
      assert ([rs[0]] + tail)[1..] == tail;
    } else {
      CutRange(rs, a);
    }
  }

  /** A range put in front of a list that begins beyond it. */
  lemma Prepend(r: Range, rest: seq<Range>)
    requires Normal(rest) && r.from <= r.to && (|rest| > 0 ==> r.to + 1 < rest[0].from)
    ensures Normal([r] + rest)
    ensures forall x :: In(x, [r] + rest) <==> r.from <= x <= r.to || In(x, rest)
  {
    assert ([r] + rest)[1..] == rest;
  }

  lemma CutRange(rs: seq<Range>, a: Addr)
    requires Normal(rs) && |rs| > 0 && rs[0].from <= a <= rs[0].to
    ensures Normal(Without(rs, a))
    ensures forall x :: In(x, Without(rs, a)) <==> In(x, rs) && x != a
    ensures |Without(rs, a)| > 0 ==> rs[0].from <= Without(rs, a)[0].from
  {
    var r, rest := rs[0], rs[1..];
    forall x | In(x, rest) ensures x > r.to {
      FirstIsLeast(rest, x);
    }
    assert forall x :: In(x, rs) <==> r.from <= x <= r.to || In(x, rest);
    var left, right := Range(r.from, a - 1), Range(a + 1, r.to);
    var tail := if a < r.to then [right] + rest else rest;
    assert Normal(rest) && (|rest| > 0 ==> r.to + 1 < rest[0].from);
    assert Without(rs, a) == if r.from < a then [left] + tail else tail;
    hide Normal, In, Without;
    if a < r.to {
      Prepend(right, rest);
    }
    if r.from < a {
      Prepend(left, tail);
    }
  }

  /** A builder that starts empty, takes one prefix and loses addresses. */
  class Builder {
    var ranges: seq<Range>

    ghost predicate Valid()
      reads this
    {
      Normal(ranges)
    }

    constructor ()
      ensures Valid() && ranges == []
    {
      ranges := [];
    }

    method AddPrefix(p: Prefix)
      requires ranges == [] && ValidPrefix(p)
      modifies this
      ensures Valid()
      ensures forall x :: In(x, ranges) <==> First(p) <= x <= Last(p)
    {
      ranges := [Range(First(p), Last(p))];
    }

    method Remove(a: Addr)
      requires Valid()
      modifies this
      ensures Valid()
      ensures forall x :: In(x, ranges) <==> old(In(x, ranges)) && x != a
    {
      WithoutMeaning(ranges, a);
      ranges := Without(ranges, a);
    }
  }
}
