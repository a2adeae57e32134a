/**
 * `allocateClientIP`: the address a new client gets when it brings none. The
 * server's address `A.B.C.D/mask` gives the prefix `A.B.C`; the host octets in
 * use are the server's own fourth octet and the fourth octet of every client's
 * allowed-IP; the result is `A.B.C.N/32` for the least free `N` in 2..254.
 */
module Allocator {
  import opened Wrappers
  import opened Text
  import opened Document

  const FALLBACK_ADDRESS: string := "10.0.0.2/32"
  const FIRST_HOST: int := 2
  const LAST_HOST: int := 254

  /** The dot-separated parts of the address before its `/`. */
  function Octets(address: string): (parts: seq<string>)
    ensures |parts| >= 1
    ensures forall k :: 0 <= k < |parts| ==> '.' !in parts[k] && '/' !in parts[k]
  {
    Split(Split(address, '/')[0], '.')
  }

  /** The fourth octet of an address, when it has four parts and the fourth parses as an integer. */
  function HostOctet(address: string): (r: Option<int>)
    ensures |Octets(address)| != 4 ==> r.None?
    ensures r.Some? ==> MIN_INT64 <= r.value <= MAX_INT64
  {
    var parts := Octets(address);
    if |parts| == 4 then ParseInt(parts[3]) else None
  }

  function OctetSet(o: Option<int>): set<int> {
    if o.Some? then {o.value} else {}
  }

  /** The host octets the clients' allowed-IPs take; their first three parts play no role. */
  function ClientOctets(cs: seq<Client>): set<int> {
    set k | 0 <= k < |cs| && HostOctet(cs[k].allowedIPs).Some? :: HostOctet(cs[k].allowedIPs).value
  }

  /** Every host octet the server and its clients hold. */
  function UsedOctets(server: Server): set<int> {
    OctetSet(HostOctet(server.address)) + ClientOctets(server.clients)
  }

  /** An octet is in use exactly when it is the server's host octet or some client's. */
  lemma UsedOctetsMembers(server: Server, m: int)
    ensures m in UsedOctets(server) <==>
      HostOctet(server.address) == Some(m)
      || exists k :: 0 <= k < |server.clients| && HostOctet(server.clients[k].allowedIPs) == Some(m)
  {
  }

  predicate IsLeastFree(n: int, used: set<int>) {
    FIRST_HOST <= n <= LAST_HOST && n !in used && forall m :: FIRST_HOST <= m < n ==> m in used
  }

  predicate Exhausted(used: set<int>) {
    forall m :: FIRST_HOST <= m <= LAST_HOST ==> m in used
  }

  /** The scan `for i := from; i <= 254; i++ { if !used[i] { return i } }`. */
  function FirstFree(used: set<int>, from: int): (r: Option<int>)
    ensures r.Some? ==> from <= r.value <= LAST_HOST && r.value !in used
    ensures forall m :: from <= m <= LAST_HOST && (r.None? || m < r.value) ==> m in used
    decreases LAST_HOST + 1 - from
  {
    if from > LAST_HOST then None
    else if from !in used then Some(from)
    else FirstFree(used, from + 1)
  }

  function Prefix(parts: seq<string>): string
    requires |parts| >= 3
  {
    parts[0] + "." + parts[1] + "." + parts[2]
  }

  function HostAddress(prefix: string, n: nat): string {
    prefix + "." + NatToString(n) + "/32"
  }

  function AllocateClientIP(server: Server): (a: string)
    ensures |Octets(server.address)| != 4 ==> a == FALLBACK_ADDRESS
    ensures |Octets(server.address)| == 4 ==>
      exists n: nat :: a == HostAddress(Prefix(Octets(server.address)), n)
                    && ((FIRST_HOST <= n <= LAST_HOST && n !in UsedOctets(server)) || n == |server.clients| + 2)
  {
    var parts := Octets(server.address);
    if |parts| != 4 then FALLBACK_ADDRESS
    else
      match FirstFree(UsedOctets(server), FIRST_HOST)
      case Some(n) => HostAddress(Prefix(parts), n)
      case None => HostAddress(Prefix(parts), |server.clients| + 2)
  }

  /**
   * What the allocator returns: the fixed fallback when the server address does
   * not have four octets; otherwise the address of the least free host octet
   * under the server's prefix, or, when 2..254 are all taken, the octet
   * `len(clients) + 2`. By `LeastFreeUnique`, the octet `n` is determined by
   * the used set alone.
   */
  lemma AllocateClientIPSpec(server: Server)
    ensures |Octets(server.address)| != 4 ==> AllocateClientIP(server) == FALLBACK_ADDRESS
    ensures |Octets(server.address)| == 4 ==>
      if Exhausted(UsedOctets(server))
      then AllocateClientIP(server) == HostAddress(Prefix(Octets(server.address)), |server.clients| + 2)
      else exists n :: IsLeastFree(n, UsedOctets(server))
                   && AllocateClientIP(server) == HostAddress(Prefix(Octets(server.address)), n)
  {
    if |Octets(server.address)| == 4 {
      var used := UsedOctets(server);
      match FirstFree(used, FIRST_HOST)
      case Some(n) =>
        assert IsLeastFree(n, used);
      case None =>
    }
  }

  /** There is only one least free octet. */
  lemma LeastFreeUnique(n: int, m: int, used: set<int>)
    requires IsLeastFree(n, used) && IsLeastFree(m, used)
    ensures n == m
  {
  }

  /** Parsing an address the allocator built gives back its prefix and host octet. */
  lemma {:induction false} OctetsOfHostAddress(parts: seq<string>, n: nat)
    requires |parts| == 4
    requires forall k :: 0 <= k < 4 ==> '.' !in parts[k] && '/' !in parts[k]
    requires n <= MAX_INT64
    ensures Octets(HostAddress(Prefix(parts), n)) == parts[..3] + [NatToString(n)]
    ensures HostOctet(HostAddress(Prefix(parts), n)) == Some(n)
  {
    var digits := NatToString(n);
    assert '.' !in digits && '/' !in digits by {
      assert forall k :: 0 <= k < |digits| ==> IsDigit(digits[k]);
    }
    var pieces := parts[..3] + [digits];
    var base := Join(pieces, '.');
    JoinFour(pieces, '.');
    assert base == Prefix(parts) + "." + digits;
    var address := Join([base, "32"], '/');
    JoinTwo([base, "32"], '/');
    assert address == HostAddress(Prefix(parts), n);
    SplitJoin([base, "32"], '/');
    SplitJoin(pieces, '.');
    ParseNatToString(n);
  }

  /**
   * When some octet in 2..254 is free, the allocated address lies under the
   * server's prefix and its host octet is the least one neither the server nor
   * any client holds.
   */
  lemma AllocatedIsFresh(server: Server)
    requires |Octets(server.address)| == 4
    requires !Exhausted(UsedOctets(server))
    ensures var a := AllocateClientIP(server);
      && |Octets(a)| == 4
      && Octets(a)[..3] == Octets(server.address)[..3]
      && HostOctet(a).Some?
      && IsLeastFree(HostOctet(a).value, UsedOctets(server))
  {
    var parts := Octets(server.address);
    var used := UsedOctets(server);
    match FirstFree(used, FIRST_HOST)
    case Some(n) =>
      OctetsOfHostAddress(parts, n);
      assert Octets(HostAddress(Prefix(parts), n))[..3] == parts[..3];
    case None =>
      assert false;
  }

  lemma ClientOctetsAppend(cs: seq<Client>, c: Client)
    ensures ClientOctets(cs + [c]) == ClientOctets(cs) + OctetSet(HostOctet(c.allowedIPs))
  {
    var cs' := cs + [c];
    forall x | x in ClientOctets(cs')
      ensures x in ClientOctets(cs) + OctetSet(HostOctet(c.allowedIPs))
    {
      var k :| 0 <= k < |cs'| && HostOctet(cs'[k].allowedIPs).Some? && HostOctet(cs'[k].allowedIPs).value == x;
      if k < |cs| { assert cs'[k] == cs[k]; }
    }
    forall x | x in ClientOctets(cs)
      ensures x in ClientOctets(cs')
    {
      var k :| 0 <= k < |cs| && HostOctet(cs[k].allowedIPs).Some? && HostOctet(cs[k].allowedIPs).value == x;
      assert cs'[k] == cs[k];
    }
    if HostOctet(c.allowedIPs).Some? {
      assert cs'[|cs|] == c;
    }
  }

  /**
   * Two allocations in a row give different addresses: once a client holding
   * the first allocation is appended, its octet counts as used, so the next
   * allocation (while octets remain) picks another.
   */
  lemma SuccessiveAllocationsDiffer(server: Server, c: Client)
    requires |Octets(server.address)| == 4
    requires !Exhausted(UsedOctets(server))
    requires c.allowedIPs == AllocateClientIP(server)
    ensures var next := server.(clients := server.clients + [c]);
      && HostOctet(c.allowedIPs).Some?
      && UsedOctets(next) == UsedOctets(server) + {HostOctet(c.allowedIPs).value}
      && (!Exhausted(UsedOctets(next)) ==>
            HostOctet(AllocateClientIP(next)).Some? && HostOctet(AllocateClientIP(next)) != HostOctet(c.allowedIPs))
  {
    var next := server.(clients := server.clients + [c]);
    AllocatedIsFresh(server);
    ClientOctetsAppend(server.clients, c);
    if !Exhausted(UsedOctets(next)) {
      AllocatedIsFresh(next);
    }
  }

  /** Only the fourth octet of each client address matters to the allocator. */
  lemma AllocationIgnoresClientPrefixes(s1: Server, s2: Server)
    requires s1.address == s2.address && |s1.clients| == |s2.clients|
    requires forall k :: 0 <= k < |s1.clients| ==>
      HostOctet(s1.clients[k].allowedIPs) == HostOctet(s2.clients[k].allowedIPs)
    ensures AllocateClientIP(s1) == AllocateClientIP(s2)
  {
    assert ClientOctets(s1.clients) == ClientOctets(s2.clients);
  }

  /** The octets lo..hi. */
  function HostRange(lo: int, hi: int): (r: set<int>)
    requires lo <= hi + 1
    ensures forall m :: m in r <==> lo <= m <= hi
    ensures |r| == hi - lo + 1
    decreases hi - lo + 1
  {
    if lo > hi then {} else {lo} + HostRange(lo + 1, hi)
  }

  lemma {:induction false} ClientOctetsSize(cs: seq<Client>)
    ensures |ClientOctets(cs)| <= |cs|
    decreases |cs|
  {
    if |cs| > 0 {
      var init := cs[..|cs| - 1];
      assert cs == init + [cs[|cs| - 1]];
      ClientOctetsAppend(init, cs[|cs| - 1]);
      ClientOctetsSize(init);
    } else {
      assert ClientOctets(cs) == {};
    }
  }

  lemma SubsetSize(a: set<int>, b: set<int>)
    requires a <= b
    ensures |a| <= |b|
  {
    assert b == a + (b - a);
  }

  /** Taking every octet of 2..254 takes at least 252 clients besides the server. */
  lemma ExhaustionNeedsClients(server: Server)
    requires Exhausted(UsedOctets(server))
    ensures |server.clients| >= 252
  {
    var used := UsedOctets(server);
    var hosts := HostRange(FIRST_HOST, LAST_HOST);
    assert hosts <= used;
    SubsetSize(hosts, used);
    ClientOctetsSize(server.clients);
    assert |OctetSet(HostOctet(server.address))| <= 1;
  }

  /**
   * The exhaustion fallback: when 2..254 are all taken, the octet
   * `len(clients) + 2` is at least 254; it is either outside 2..254 or already
   * in use, never a free host octet.
   */
  lemma ExhaustedFallback(server: Server)
    requires |Octets(server.address)| == 4
    requires Exhausted(UsedOctets(server))
    ensures |server.clients| + 2 >= LAST_HOST
    ensures AllocateClientIP(server) == HostAddress(Prefix(Octets(server.address)), |server.clients| + 2)
    ensures |server.clients| + 2 <= LAST_HOST ==> |server.clients| + 2 in UsedOctets(server)
  {
    ExhaustionNeedsClients(server);
  }

  /** Octets("A.B.C.D/M") is [A, B, C, D] when no part holds a dot or a slash. */
  lemma {:induction false} OctetsOfAddress(parts: seq<string>, mask: string)
    requires |parts| == 4
    requires forall k :: 0 <= k < 4 ==> '.' !in parts[k] && '/' !in parts[k]
    requires '/' !in mask
    ensures Octets(Join(parts, '.') + "/" + mask) == parts
  {
    var base := Join(parts, '.');
    JoinFour(parts, '.');
    JoinTwo([base, mask], '/');
    SplitJoin([base, mask], '/');
    SplitJoin(parts, '.');
  }

  lemma ExampleOctets(address: string)
    requires address == "10.0.0.1/24"
    ensures Octets(address) == ["10", "0", "0", "1"]
  {
    var parts := ["10", "0", "0", "1"];
    JoinFour(parts, '.');
    OctetsOfAddress(parts, "24");
    assert Join(parts, '.') + "/" + "24" == address;
  }

  lemma ParseOne()
    ensures ParseInt("1") == Some(1)
  {
    assert NatToString(1) == "1";
    ParseNatToString(1);
  }

  /** The parts and host octet of the address 10.0.0.1/24. */
  predicate ExampleAddress(address: string) {
    Octets(address) == ["10", "0", "0", "1"] && HostOctet(address) == Some(1)
  }

  lemma ExampleServerAddress(address: string)
    requires address == "10.0.0.1/24"
    ensures ExampleAddress(address)
  {
    ExampleOctets(address);
    ParseOne();
  }

  lemma ExampleFormat()
    ensures HostAddress("10.0.0", 2) == "10.0.0.2/32"
    ensures HostAddress("10.0.0", 3) == "10.0.0.3/32"
  {
    assert NatToString(2) == "2";
    assert NatToString(3) == "3";
  }

  lemma ExamplePrefix(parts: seq<string>)
    requires parts == ["10", "0", "0", "1"]
    ensures Prefix(parts) == "10.0.0"
  {
  }

  /** A server whose host octet is 1 and that has no clients hands out octet 2. */
  lemma ExampleFirstAllocation(server: Server)
    requires |Octets(server.address)| == 4 && HostOctet(server.address) == Some(1) && server.clients == []
    ensures AllocateClientIP(server) == HostAddress(Prefix(Octets(server.address)), 2)
    ensures HostOctet(AllocateClientIP(server)) == Some(2)
  {
    assert ClientOctets(server.clients) == {};
    assert FirstFree(UsedOctets(server), 2) == Some(2) by {
      assert UsedOctets(server) == {1};
      assert FirstFree({1}, 2) == Some(2);
    }
    OctetsOfHostAddress(Octets(server.address), 2);
  }

  /** Once its only client holds octet 2, the same server hands out octet 3. */
  lemma ExampleSecondAllocation(server: Server, c: Client)
    requires |Octets(server.address)| == 4 && HostOctet(server.address) == Some(1)
    requires server.clients == [c] && HostOctet(c.allowedIPs) == Some(2)
    ensures AllocateClientIP(server) == HostAddress(Prefix(Octets(server.address)), 3)
  {
    ClientOctetsSingle(c);
    assert UsedOctets(server) == {1, 2};
    FirstFreeAfterTwo();
  }

  lemma ClientOctetsSingle(c: Client)
    ensures ClientOctets([c]) == OctetSet(HostOctet(c.allowedIPs))
  {
    ClientOctetsAppend([], c);
    assert [] + [c] == [c];
    assert ClientOctets([]) == {};
  }

  lemma FirstFreeAfterTwo()
    ensures FirstFree({1, 2}, 2) == Some(3)
  {
    assert FirstFree({1, 2}, 3) == Some(3);
  }

  /**
   * A server at 10.0.0.1/24 without clients hands out 10.0.0.2/32 first and,
   * once a client holds that address, 10.0.0.3/32 next.
   */
  lemma FirstTwoAllocations(server: Server, c: Client)
    requires server.address == "10.0.0.1/24" && server.clients == []
    requires c.allowedIPs == AllocateClientIP(server)
    ensures AllocateClientIP(server) == "10.0.0.2/32"
    ensures AllocateClientIP(server.(clients := [c])) == "10.0.0.3/32"
  {
    ExampleServerAddress(server.address);
    ExamplePrefix(Octets(server.address));
    ExampleFirstAllocation(server);
    ExampleSecondAllocation(server.(clients := [c]), c);
    ExampleFormat();
  }
}
