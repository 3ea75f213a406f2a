/** The overlay network and the allocator of host addresses. */
module Overlay {
  import opened Wrappers
  import opened Inet

  function Pow2(n: nat): (p: nat)
    ensures p >= 1
  {
    if n == 0 then 1 else 2 * Pow2(n - 1)
  }

  /** An IPv4 network in CIDR form, host bits zero. */
  datatype Network = Network(base: Address, prefixLen: nat) {

    predicate Valid() {
      prefixLen <= 32 && base + Size() <= 0x1_0000_0000
    }

    function Size(): nat {
      if prefixLen <= 32 then Pow2(32 - prefixLen) else 1
    }

    /** `hosts()` yields the addresses from FirstHost up to, but not including, HostsEnd: all but
        the network and broadcast addresses, except that a /31 has two and a /32 one. */
    function FirstHost(): nat {
      if prefixLen <= 30 then base + 1 else base
    }

    function HostsEnd(): nat {
      if prefixLen <= 30 then base + Size() - 1 else base + Size()
    }
  }

  /** The addresses in [lo, hi) other than the server's, lowest first. */
  function Usable(lo: nat, hi: nat, server: Address): (r: seq<nat>)
    ensures forall x :: x in r <==> lo <= x < hi && x != server
    ensures forall i, j :: 0 <= i < j < |r| ==> r[i] < r[j]
    ensures |r| == if hi <= lo then 0 else if lo <= server < hi then hi - lo - 1 else hi - lo
    decreases hi - lo
  {
    if lo >= hi then []
    else if lo == server then Usable(lo + 1, hi, server)
    else
      var rest := Usable(lo + 1, hi, server);
      assert forall i :: 0 <= i < |rest| ==> rest[i] in rest;
      [lo] + rest
  }

  /** The hosts a router can get. */
  function Pool(network: Network, server: Address): seq<nat> {
    Usable(network.FirstHost(), network.HostsEnd(), server)
  }

  /** A router can get every address of the network but the server's and, in a network of more
      than two addresses, the first and the last. */
  lemma PoolExactly(network: Network, server: Address, x: nat)
    requires network.Valid()
    ensures x in Pool(network, server) <==>
              && network.base <= x < network.base + Pow2(32 - network.prefixLen) && x != server
              && (network.prefixLen < 31 ==>
                    x != network.base && x != network.base + Pow2(32 - network.prefixLen) - 1)
    ensures forall i, j :: 0 <= i < j < |Pool(network, server)| ==> Pool(network, server)[i] < Pool(network, server)[j]
  {
  }

  /** The lowest address in [lo, hi) that is not used. */
  function LowestFree(lo: nat, hi: nat, used: set<nat>): (r: Option<nat>)
    ensures r.Some? ==> lo <= r.value < hi && r.value !in used
    ensures forall x :: lo <= x < hi && (r.Some? ==> x < r.value) ==> x in used
    decreases hi - lo
  {
    if lo >= hi then None
    else if lo !in used then Some(lo)
    else LowestFree(lo + 1, hi, used)
  }

  /** What the allocator answers, given the addresses in the table. */
  function Allocate(network: Network, server: Address, used: set<nat>): Option<nat> {
    LowestFree(network.FirstHost(), network.HostsEnd(), used + {server})
  }

  function Elements(s: seq<nat>): set<nat> {
    set x | x in s
  }

  /** When the addresses in use are the first n of the pool, the next one is allocated; the
      allocator fails exactly when the pool is used up. */
  lemma AllocatesNext(network: Network, server: Address, n: nat)
    requires n <= |Pool(network, server)|
    ensures Allocate(network, server, Elements(Pool(network, server)[..n]))
         == if n < |Pool(network, server)| then Some(Pool(network, server)[n]) else None
  {
    var pool := Pool(network, server);
    var used := Elements(pool[..n]);
    var r := Allocate(network, server, used);
    if n < |pool| {
      assert pool[n] in pool;
      assert pool[n] !in pool[..n];
      assert pool[n] !in used + {server};
      assert r.Some? && r.value <= pool[n];
      assert r.value in pool && r.value !in pool[..n];
      var i :| 0 <= i < |pool| && pool[i] == r.value;
    } else {
      assert pool[..n] == pool;
    }
  }

  /** The default overlay, 10.100.0.0/22 with the server on 10.100.0.1, has 1021 addresses
      for routers. */
  lemma DefaultPool()
    ensures Network(0x0A64_0000, 22).Valid()
    ensures |Pool(Network(0x0A64_0000, 22), 0x0A64_0001)| == 1021
    ensures Pool(Network(0x0A64_0000, 22), 0x0A64_0001)[0] == 0x0A64_0002
  {
    assert Pow2(10) == 1024 by {
      assert Pow2(5) == 32;
    }
    var network := Network(0x0A64_0000, 22);
    assert network.FirstHost() == 0x0A64_0001 && network.HostsEnd() == 0x0A64_03FF;
    var pool := Pool(network, 0x0A64_0001);
    assert 0x0A64_0002 in pool && pool[0] in pool;
    var i :| 0 <= i < |pool| && pool[i] == 0x0A64_0002;
    assert i > 0 ==> pool[0] < pool[i];
  }

  // ----- the allocator itself -------------------------------------------------------

  datatype AllocationError = BadAddress(text: string) | Exhausted

  predicate Coerces(column: seq<Option<InetValue>>) {
    forall i :: 0 <= i < |column| && column[i].Some? ==> CoerceIp(column[i].value).Success?
  }

  function Addresses(column: seq<Option<InetValue>>): set<nat>
    requires Coerces(column)
  {
    set i | 0 <= i < |column| && column[i].Some? :: CoerceIp(column[i].value).value
  }

  /** Scan the column of overlay addresses, then the hosts in order. */
  method AllocateOverlayIp(network: Network, server: Address, column: seq<Option<InetValue>>)
      returns (r: Result<nat, AllocationError>)
    ensures !Coerces(column) <==> r.Failure? && r.error.BadAddress?
    ensures Coerces(column) ==>
              r == match Allocate(network, server, Addresses(column))
                   case Some(a) => Success(a)
                   case None => Failure(Exhausted)
  {
    var used: set<nat> := {};
    for i := 0 to |column|
      invariant Coerces(column[..i])
      invariant used == Addresses(column[..i])
    {
      if column[i].Some? {
        match CoerceIp(column[i].value) {
          case Failure(e) =>
            return Failure(BadAddress(e.text));
          case Success(a) =>
            used := used + {a};
        }
      }
      assert forall j :: 0 <= j <= i ==> column[..i + 1][j] == column[j];
      assert forall j :: 0 <= j < i ==> column[..i][j] == column[j];
    }
    assert column[..|column|] == column;
    used := used + {server};
    var candidate, end := network.FirstHost(), network.HostsEnd();
    while candidate < end
      invariant LowestFree(candidate, end, used) == LowestFree(network.FirstHost(), end, used)
    {
      if candidate !in used {
        return Success(candidate);
      }
      candidate := candidate + 1;
    }
    return Failure(Exhausted);
  }
}
