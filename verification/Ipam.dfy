/**
 Handing out addresses of a managed network: one is reserved when the network is prepared, and
 every server gets one when it is set up.  The members of the network can differ from one
 request to the next; what was handed out is remembered in `ipsUsed`.
 */
module Ipam {
  import opened IPSets
  import opened Wrappers

  /** GetIP's results: `NoneLeft` stands for the index out of range on an empty set. */
  datatype IPResult = Address(ip: Addr) | NoneLeft | BuildFailed

  class Network {
    const prefix: Prefix
    const gateway: Option<Addr>
    var ipsUsed: seq<Addr>

    constructor (prefix: Prefix, gateway: Option<Addr>)
      ensures this.prefix == prefix && this.gateway == gateway && ipsUsed == []
    {
      this.prefix, this.gateway, ipsUsed := prefix, gateway, [];
    }
  }

  /** The gateway the network is configured with, or the address after the prefix address. */
  function Gateway(p: Prefix, configured: Option<Addr>): Option<Addr> {
    if configured.Some? then configured
    else if p.addr + 1 < Pow2(p.width) then Some(p.addr + 1)
    else None
  }

  /** The used addresses of one request: the gateway, the members, and those known before. */
  function UsedBy(gateway: Addr, members: seq<Addr>, known: seq<Addr>): seq<Addr> {
    [gateway] + members + known
  }

  /** `n` consecutive addresses. */
  ghost function Block(from: Addr, n: nat): (r: set<Addr>)
    ensures forall a :: a in r <==> from <= a < from + n
    ensures |r| == n
  {
    if n == 0 then {} else Block(from, n - 1) + {from + n - 1}
  }

  ghost function Hosts(p: Prefix): set<Addr>
    requires p.bits <= p.width
  {
    Block(First(p), Size(p))
  }

  /** The addresses one request can be given. */
  ghost function Free(p: Prefix, used: seq<Addr>): set<Addr>
    requires p.bits <= p.width
  {
    set a | a in Hosts(p) && a !in used && a != p.addr && a != Last(p)
  }

  ghost predicate IsLeast(s: set<Addr>, a: Addr) {
    a in s && forall x | x in s :: a <= x
  }

  /**
   `r` answers a request: the least free address, none if there is none; the set cannot be built
   without a gateway address.
   */
  ghost predicate Answers(p: Prefix, configured: Option<Addr>, members: seq<Addr>, known: seq<Addr>, r: IPResult)
    requires p.bits <= p.width
  {
    match Gateway(p, configured)
    case None => r.BuildFailed?
    case Some(gateway) =>
      var free := Free(p, UsedBy(gateway, members, known));
      match r
      case Address(ip) => IsLeast(free, ip)
      case NoneLeft => free == {}
      case BuildFailed => false
  }

  /** From a set of ranges that is filled and reduced step by step, the first address. */
  method GetIP(network: Network, members: seq<Addr>) returns (r: IPResult)
    requires ValidPrefix(network.prefix)
    ensures Answers(network.prefix, network.gateway, members, network.ipsUsed, r)
  {
    var p := network.prefix;
    var gateway := Gateway(p, network.gateway);
    if gateway.None? {
      return BuildFailed;
    }
    var used := UsedBy(gateway.value, members, network.ipsUsed);
    var builder := new Builder();
    builder.AddPrefix(p);
    for i := 0 to |used|
      invariant builder.Valid()
      invariant forall x :: In(x, builder.ranges) <==> First(p) <= x <= Last(p) && x !in used[..i]
    {
      assert used[..i + 1] == used[..i] + [used[i]];
      builder.Remove(used[i]);
    }
    assert used[..|used|] == used;
    builder.Remove(p.addr);
    builder.Remove(Last(p));
    ghost var free := Free(p, used);
    assert forall x :: In(x, builder.ranges) <==> x in free;
    if |builder.ranges| == 0 {
      assert forall x :: x !in free;
      return NoneLeft;
    }
    r := Address(builder.ranges[0].from);
    forall x | x in free ensures r.ip <= x {
      FirstIsLeast(builder.ranges, x);
    }
    assert In(r.ip, builder.ranges);
  }

  /**
   What is answered, in numbers: the least address of the block of the prefix that is not the prefix address,
   not the last of the block, not the gateway, which is the configured one or else the one after the prefix
   address, and not used by a member or before.
   */
  lemma AnswerMeaning(p: Prefix, configured: Option<Addr>, members: seq<Addr>, known: seq<Addr>, a: Addr)
    requires ValidPrefix(p)
    ensures var size := Pow2(p.width - p.bits);
            var gateway := if configured.Some? then configured.value else p.addr + 1;
            Answers(p, configured, members, known, Address(a)) <==>
              && (configured.Some? || p.addr + 1 < Pow2(p.width))
              && IsAnswer(p.addr, size, gateway, members + known, a)
              && forall x | IsAnswer(p.addr, size, gateway, members + known, x) :: a <= x
  {
    var size := Pow2(p.width - p.bits);
    var gateway := if configured.Some? then configured.value else p.addr + 1;
    hide Pow2;
    forall x ensures x in Free(p, UsedBy(gateway, members, known)) <==>
                     IsAnswer(p.addr, size, gateway, members + known, x)
    {
      SameBlock(p.addr, size, x);
    }
  }

  /** An address that a request may be answered with. */
  ghost predicate IsAnswer(addr: Addr, size: nat, gateway: Addr, used: seq<Addr>, x: Addr)
    requires size > 0
  {
    x / size == addr / size && x % size != size - 1 && x != addr && x != gateway && x !in used
  }

  /** The addresses of one block are those with the same quotient. */
  lemma SameBlock(addr: Addr, size: nat, x: Addr)
    requires size > 0
    ensures x / size == addr / size <==> addr - addr % size <= x < addr - addr % size + size
    ensures x / size == addr / size ==> (x % size == size - 1 <==> x == addr - addr % size + size - 1)
  {
    var q := addr / size;
    assert addr - addr % size == size * q;
    assert x == size * (x / size) + x % size;
    BlockOf(size, q, x);
  }

  lemma BlockOf(size: nat, q: int, x: int)
    requires size > 0
    ensures x / size == q <==> size * q <= x < size * q + size
  {
    var r := x / size;
    assert x == size * r + x % size;
    if r < q {
      assert size * (r + 1) <= size * q;
    } else if r > q {
      assert size * (q + 1) <= size * r;
    }
  }

  // ---------- a whole creation run ----------

  /** What is known to be used when the `i`-th request is made. */
  ghost function UsedAt(gateway: Addr, known: seq<Addr>, members: seq<seq<Addr>>, given: seq<Addr>, i: nat): seq<Addr>
    requires i < |members| && i <= |given|
  {
    UsedBy(gateway, members[i], known + given[..i])
  }

  /**
   `given` are the addresses handed out for requests with the members `members[0]`, `members[1]`
   and so on: each the least free one, until none is left.
   */
  ghost predicate IsRun(p: Prefix, gateway: Addr, known: seq<Addr>, members: seq<seq<Addr>>, given: seq<Addr>)
    requires p.bits <= p.width
  {
    && |given| <= |members|
    && (forall i | 0 <= i < |given| :: IsLeast(Free(p, UsedAt(gateway, known, members, given, i)), given[i]))
    && (|given| < |members| ==> Free(p, UsedAt(gateway, known, members, given, |given|)) == {})
  }

  /** One request; the address handed out counts as used from then on. */
  method AssignIP(network: Network, members: seq<Addr>) returns (r: IPResult)
    requires ValidPrefix(network.prefix)
    modifies network
    ensures Answers(network.prefix, network.gateway, members, old(network.ipsUsed), r)
    ensures network.ipsUsed == old(network.ipsUsed) + if r.Address? then [r.ip] else []
  {
    r := GetIP(network, members);
    if r.Address? {
      network.ipsUsed := network.ipsUsed + [r.ip];
    }
  }

  /** One more answered request continues a run in which all requests so far got an address. */
  lemma RunStep(p: Prefix, configured: Option<Addr>, gateway: Addr, known: seq<Addr>, asked: seq<seq<Addr>>,
                given: seq<Addr>, members: seq<Addr>, r: IPResult)
    requires p.bits <= p.width && |given| == |asked| && IsRun(p, gateway, known, asked, given)
    requires Gateway(p, configured) == Some(gateway) && Answers(p, configured, members, known + given, r)
    ensures IsRun(p, gateway, known, asked + [members], given + if r.Address? then [r.ip] else [])
  {
    hide Free, IsLeast, UsedBy;
    var asked', given' := asked + [members], given + if r.Address? then [r.ip] else [];
    forall i | 0 <= i <= |given| ensures
        UsedAt(gateway, known, asked', given', i) == UsedBy(gateway, asked'[i], known + given[..i])
    {
      assert given'[..i] == given[..i];
    }
    assert given[..|given|] == given;
    forall i | 0 <= i < |given| ensures IsLeast(Free(p, UsedAt(gateway, known, asked', given', i)), given'[i]) {
      assert IsLeast(Free(p, UsedAt(gateway, known, asked, given, i)), given[i]);
    }
  }

  /** A run that served all its requests, continued by another one. */
  lemma RunConcat(p: Prefix, gateway: Addr, known: seq<Addr>, asked: seq<seq<Addr>>, given: seq<Addr>,
                  asked': seq<seq<Addr>>, given': seq<Addr>)
    requires p.bits <= p.width && |given| == |asked|
    requires IsRun(p, gateway, known, asked, given) && IsRun(p, gateway, known + given, asked', given')
    ensures IsRun(p, gateway, known, asked + asked', given + given')
  {
    hide Free, IsLeast, UsedBy;
    var a, g := asked + asked', given + given';
    forall i | 0 <= i <= |g| && i < |a|
      ensures i < |given| ==> UsedAt(gateway, known, a, g, i) == UsedAt(gateway, known, asked, given, i)
      ensures i >= |given| ==>
                UsedAt(gateway, known, a, g, i) == UsedAt(gateway, known + given, asked', given', i - |given|)
    {
      if i < |given| {
        assert g[..i] == given[..i];
      } else {
        assert known + g[..i] == known + given + given'[..i - |given|];
      }
    }
  }

  lemma GivenIsFree(p: Prefix, gateway: Addr, known: seq<Addr>, members: seq<seq<Addr>>, given: seq<Addr>, i: nat)
    requires p.bits <= p.width && IsRun(p, gateway, known, members, given) && i < |given|
    ensures given[i] in Hosts(p) && given[i] != p.addr && given[i] != Last(p)
    ensures given[i] != gateway && given[i] !in members[i] && given[i] !in known && given[i] !in given[..i]
  {
    hide IsLeast, Hosts;
    var used := UsedAt(gateway, known, members, given, i);
    assert IsLeast(Free(p, used), given[i]);
    LeastIsMember(Free(p, used), given[i]);
    assert used[0] == gateway;
  }

  lemma LeastIsMember(s: set<Addr>, a: Addr)
    requires IsLeast(s, a)
    ensures a in s
  {}

  /**
   Whatever members come and go: the addresses handed out are distinct, inside the prefix, and
   never its own address, its last one, the gateway, one used before, or that of a member present
   at the request.
   */
  lemma AssignmentsSafe(p: Prefix, gateway: Addr, known: seq<Addr>, members: seq<seq<Addr>>, given: seq<Addr>)
    requires p.bits <= p.width && IsRun(p, gateway, known, members, given)
    ensures forall i, j | 0 <= i < j < |given| :: given[i] != given[j]
    ensures forall i | 0 <= i < |given| ::
              && First(p) <= given[i] <= Last(p)
              && given[i] !in {p.addr, Last(p), gateway}
              && given[i] !in known && given[i] !in members[i]
  {
    hide IsLeast, UsedAt;
    forall i | 0 <= i < |given|
      ensures given[i] in Hosts(p) && given[i] != p.addr && given[i] != Last(p) && given[i] != gateway
      ensures given[i] !in known && given[i] !in members[i] && given[i] !in given[..i]
    {
      GivenIsFree(p, gateway, known, members, given, i);
    }
    forall i, j | 0 <= i < j < |given| ensures given[i] != given[j] {
      assert given[..j][i] == given[i];
    }
  }

  // ---------- fixed members ----------

  ghost predicate Fixed(members: seq<seq<Addr>>, m: seq<Addr>) {
    forall i | 0 <= i < |members| :: members[i] == m
  }

  /** What is free for the next request is what was free at first, less what was handed out. */
  lemma FreeShrinks(p: Prefix, gateway: Addr, known: seq<Addr>, members: seq<seq<Addr>>, m: seq<Addr>,
                    given: seq<Addr>, i: nat)
    requires p.bits <= p.width && Fixed(members, m) && i < |members| && i <= |given|
    ensures Free(p, UsedAt(gateway, known, members, given, i)) ==
            Free(p, UsedBy(gateway, m, known)) - (set a | a in given[..i])
  {}

  lemma {:induction false} DistinctCount(xs: seq<Addr>)
    requires forall i, j | 0 <= i < j < |xs| :: xs[i] != xs[j]
    ensures |set a | a in xs| == |xs|
  {
    if |xs| > 0 {
      var front, last := xs[..|xs| - 1], xs[|xs| - 1];
      DistinctCount(front);
      assert (set a | a in xs) == (set a | a in front) + {last};
    }
  }

  /**
   With fixed members the `i`-th request gets the `i`-th smallest free address: it is free at the
   start, and exactly `i` of the free addresses are below it, namely those handed out before.
   */
  lemma {:induction false} IthSmallest(p: Prefix, gateway: Addr, known: seq<Addr>, members: seq<seq<Addr>>,
                                       m: seq<Addr>, given: seq<Addr>, i: nat)
    requires p.bits <= p.width && Fixed(members, m) && IsRun(p, gateway, known, members, given) && i < |given|
    ensures var free := Free(p, UsedBy(gateway, m, known));
            && given[i] in free
            && (set a | a in free && a < given[i]) == (set a | a in given[..i])
            && |set a | a in free && a < given[i]| == i
  {
    hide UsedBy, Hosts;
    var free := Free(p, UsedBy(gateway, m, known));
    var taken := set a | a in given[..i];
    assert IsLeast(Free(p, UsedAt(gateway, known, members, given, i)), given[i]);
    FreeShrinks(p, gateway, known, members, m, given, i);
    forall j | 0 <= j < i ensures given[j] in free && given[j] < given[i] {
      assert IsLeast(Free(p, UsedAt(gateway, known, members, given, j)), given[j]);
      FreeShrinks(p, gateway, known, members, m, given, j);
      assert given[..i][j] == given[j] && given[j] in taken;
      assert forall k | 0 <= k < j :: given[..j][k] == given[..i][k];
      assert given[i] !in taken;
      assert given[i] in free - (set a | a in given[..j]);
    }
    forall a | a in free && a < given[i] ensures a in taken {
      assert a !in free - taken;
    }
    assert (set a | a in free && a < given[i]) == taken;
    AssignmentsSafe(p, gateway, known, members, given);
    DistinctCount(given[..i]);
  }

  /** With fixed members the run goes on as long as there are free addresses: it is a count. */
  lemma RunLength(p: Prefix, gateway: Addr, known: seq<Addr>, members: seq<seq<Addr>>, m: seq<Addr>, given: seq<Addr>)
    requires p.bits <= p.width && Fixed(members, m) && IsRun(p, gateway, known, members, given)
    ensures var free := |Free(p, UsedBy(gateway, m, known))|;
            |given| == if |members| <= free then |members| else free
  {
    hide IsRun, Free, UsedBy, Fixed;
    var free := Free(p, UsedBy(gateway, m, known));
    var taken := set a | a in given;
    AssignmentsSafe(p, gateway, known, members, given);
    DistinctCount(given);
    forall i | 0 <= i < |given| ensures given[i] in free {
      IthSmallest(p, gateway, known, members, m, given, i);
    }
    assert taken <= free;
    Difference(taken, free);
    WhenRunEnds(p, gateway, known, members, m, given);
  }

  /** A run makes no more answers than requests, and one that stops early has used all free addresses. */
  lemma WhenRunEnds(p: Prefix, gateway: Addr, known: seq<Addr>, members: seq<seq<Addr>>, m: seq<Addr>, given: seq<Addr>)
    requires p.bits <= p.width && Fixed(members, m) && IsRun(p, gateway, known, members, given)
    ensures |given| <= |members|
    ensures |given| < |members| ==> Free(p, UsedBy(gateway, m, known)) - (set a | a in given) == {}
  {
    hide Free, UsedBy;
    if |given| < |members| {
      FreeShrinks(p, gateway, known, members, m, given, |given|);
      assert given[..|given|] == given;
    }
  }

  /** Members that are distinct hosts of the prefix other than its ends and the gateway. */
  ghost predicate OrdinaryMembers(p: Prefix, gateway: Addr, m: seq<Addr>)
    requires p.bits <= p.width
  {
    && (forall i, j | 0 <= i < j < |m| :: m[i] != m[j])
    && (forall a | a in m :: a in Hosts(p) && a !in {First(p), Last(p), gateway})
  }

  /**
   The number of free addresses of a canonical prefix: all of them but the first, the last, the
   gateway and those of the members.
   */
  lemma FreeCount(p: Prefix, gateway: Addr, m: seq<Addr>)
    requires ValidPrefix(p) && p.addr == First(p)
    requires gateway in Hosts(p) && gateway !in {First(p), Last(p)} && OrdinaryMembers(p, gateway, m)
    ensures |Free(p, UsedBy(gateway, m, []))| == Size(p) - 3 - |m|
  {
    var ends, members := {First(p), Last(p), gateway}, set a | a in m;
    FreeIs(p, gateway, m);
    EndsAreHosts(p, gateway);
    hide Free, Hosts, First, Last, UsedBy;
    DistinctCount(m);
    Difference(ends, Hosts(p));
    Difference(members, Hosts(p) - ends);
  }

  lemma FreeIs(p: Prefix, gateway: Addr, m: seq<Addr>)
    requires p.bits <= p.width && p.addr == First(p)
    ensures Free(p, UsedBy(gateway, m, [])) == Hosts(p) - {First(p), Last(p), gateway} - (set a | a in m)
  {
    hide Hosts, First, Last;
  }

  lemma EndsAreHosts(p: Prefix, gateway: Addr)
    requires p.bits <= p.width
    requires gateway in Hosts(p) && gateway !in {First(p), Last(p)}
    ensures {First(p), Last(p), gateway} <= Hosts(p) && |{First(p), Last(p), gateway}| == 3
    ensures |Hosts(p)| == Size(p)
  {
    hide Size;
    assert First(p) != Last(p);
  }

  lemma Difference(a: set<Addr>, b: set<Addr>)
    requires a <= b
    ensures |b - a| == |b| - |a|
  {
    assert b == (b - a) + a;
    assert (b - a) !! a;
  }

  /**
   The exact capacity: with one address reserved, `servers` servers can be set up if and only if
   `servers <= 2^(width - bits) - 4 - u`, where `u` counts the other addresses in use.
   */
  lemma Capacity(p: Prefix, gateway: Addr, members: seq<seq<Addr>>, m: seq<Addr>, given: seq<Addr>, servers: nat)
    requires ValidPrefix(p) && p.addr == First(p)
    requires gateway in Hosts(p) && gateway !in {First(p), Last(p)} && OrdinaryMembers(p, gateway, m)
    requires Fixed(members, m) && |members| == 1 + servers
    requires IsRun(p, gateway, [], members, given)
    ensures |given| == 1 + servers <==> servers <= Size(p) - 4 - |m|
  {
    hide IsRun, Free, UsedBy, Hosts;
    FreeCount(p, gateway, m);
    RunLength(p, gateway, [], members, m, given);
  }

  /** The default gateway of a canonical prefix of at least three addresses is such a gateway. */
  lemma DefaultGateway(p: Prefix)
    requires ValidPrefix(p) && p.addr == First(p) && Size(p) >= 3
    ensures Gateway(p, None) == Some(First(p) + 1)
    ensures First(p) + 1 in Hosts(p) && First(p) + 1 !in {First(p), Last(p)}
  {
    LastIsAddress(p);
  }

  /** The addresses of a canonical prefix end within its width. */
  lemma LastIsAddress(p: Prefix)
    requires ValidPrefix(p) && p.addr == First(p)
    ensures Last(p) < Pow2(p.width)
  {
    Pow2Sum(p.width - p.bits, p.bits);
    hide Pow2;
    WholeBlocks(Size(p), p.addr, Pow2(p.bits));
  }

  lemma {:induction false} Pow2Sum(a: nat, b: nat)
    ensures Pow2(a + b) == Pow2(a) * Pow2(b)
  {
    if b > 0 {
      Pow2Sum(a, b - 1);
      Doubled(Pow2(a), Pow2(b - 1));
    }
  }

  lemma Doubled(x: nat, y: nat)
    ensures 2 * (x * y) == x * (2 * y)
  {}

  lemma WholeBlocks(size: nat, start: nat, n: nat)
    requires size > 0 && start % size == 0 && start < size * n
    ensures start + size <= size * n
  {
    var q := start / size;
    assert start == size * q;
    BlockEnd(size, q, n);
  }

  lemma BlockEnd(size: nat, q: nat, n: nat)
    requires size * q < size * n
    ensures size * q + size <= size * n
  {
    if q + 1 <= n {
      AtLeast(size, q + 1, n);
    } else {
      AtLeast(size, n, q);
    }
  }

  lemma AtLeast(size: nat, a: nat, b: nat)
    requires a <= b
    ensures size * a <= size * b
  {}

  /** A network of four addresses: the reservation takes the last free one, and no server gets any. */
  lemma NoAddressLeftExample(p: Prefix, gateway: Addr, given: seq<Addr>)
    requires p == Prefix(0x0A000000, 30, 32) && Gateway(p, None) == Some(gateway)
    requires IsRun(p, gateway, [], [[], []], given)
    ensures |given| == 1
  {
    assert Size(p) == 4 by { assert Pow2(1) == 2 && Pow2(0) == 1; }
    assert First(p) == p.addr;
    DefaultGateway(p);
    hide IsRun, Free, Hosts, Size, First, Last;
    FreeCount(p, gateway, []);
    RunLength(p, gateway, [], [[], []], [], given);
  }
}
