/**
 * The configuration document: a sequence of servers, each owning a sequence
 * of clients, and the lookups by ID that every service operation starts with.
 * Only the fields the service reads or writes are kept.
 */
module Document {
  import opened Wrappers

  /** A wall-clock reading (`time.Time`), supplied by the caller. */
  type Time = int

  datatype KeyPair = KeyPair(privateKey: string, publicKey: string)

  datatype Client = Client(
    id: string,
    name: string,
    description: string,
    privateKey: string,
    publicKey: string,
    presharedKey: string,
    allowedIPs: string,
    dns: string,
    enabled: bool,
    createdAt: Time)

  datatype Server = Server(
    id: string,
    privateKey: string,
    publicKey: string,
    address: string,
    tag: string,
    mtu: int,
    dns: string,
    enabled: bool,
    createdAt: Time,
    updatedAt: Time,
    clients: seq<Client>)

  /** Index of the first server whose ID is `id`, as the service's scans find it. */
  function FindServer(ss: seq<Server>, id: string): (r: Option<nat>)
    ensures r.Some? ==> r.value < |ss| && ss[r.value].id == id
    ensures forall k :: 0 <= k < |ss| && (r.None? || k < r.value) ==> ss[k].id != id
  {
    if |ss| == 0 then None
    else if ss[0].id == id then Some(0)
    else
      match FindServer(ss[1..], id)
      case None => None
      case Some(i) => Some(i + 1)
  }

  /** Index of the first client whose ID is `id`. */
  function FindClient(cs: seq<Client>, id: string): (r: Option<nat>)
    ensures r.Some? ==> r.value < |cs| && cs[r.value].id == id
    ensures forall k :: 0 <= k < |cs| && (r.None? || k < r.value) ==> cs[k].id != id
  {
    if |cs| == 0 then None
    else if cs[0].id == id then Some(0)
    else
      match FindClient(cs[1..], id)
      case None => None
      case Some(j) => Some(j + 1)
  }

  /**
   * The entry (server index, client index) that the nested scans over servers
   * and their clients reach first: the first server with ID `serverId` that
   * holds a client `clientId`, and the first such client in it. A server with
   * the right ID but without the client does not stop the scan.
   */
  function FindClientEntry(ss: seq<Server>, serverId: string, clientId: string): (r: Option<(nat, nat)>)
    ensures r.Some? ==>
      && r.value.0 < |ss| && ss[r.value.0].id == serverId
      && FindClient(ss[r.value.0].clients, clientId) == Some(r.value.1)
    ensures forall k :: 0 <= k < |ss| && (r.None? || k < r.value.0) && ss[k].id == serverId ==>
      FindClient(ss[k].clients, clientId).None?
  {
    if |ss| == 0 then None
    else if ss[0].id == serverId && FindClient(ss[0].clients, clientId).Some? then
      Some((0, FindClient(ss[0].clients, clientId).value))
    else
      match FindClientEntry(ss[1..], serverId, clientId)
      case None => None
      case Some(e) => Some((e.0 + 1, e.1))
  }

  /** The order-preserving splice `append(s[:i], s[i+1:]...)`. */
  function RemoveAt<T>(s: seq<T>, i: nat): (r: seq<T>)
    requires i < |s|
    ensures |r| == |s| - 1
    ensures forall k :: 0 <= k < i ==> r[k] == s[k]
    ensures forall k :: i <= k < |r| ==> r[k] == s[k + 1]
  {
    s[..i] + s[i + 1..]
  }

  function ServerIds(ss: seq<Server>): set<string> {
    set k | 0 <= k < |ss| :: ss[k].id
  }

  function ClientIds(cs: seq<Client>): set<string> {
    set k | 0 <= k < |cs| :: cs[k].id
  }

  predicate DistinctServerIds(ss: seq<Server>) {
    forall k, m :: 0 <= k < m < |ss| ==> ss[k].id != ss[m].id
  }

  predicate DistinctClientIds(cs: seq<Client>) {
    forall k, m :: 0 <= k < m < |cs| ==> cs[k].id != cs[m].id
  }

  /** The document's identity invariant: server IDs are unique, and client IDs are unique within each server. */
  predicate Consistent(ss: seq<Server>) {
    DistinctServerIds(ss) && forall k :: 0 <= k < |ss| ==> DistinctClientIds(ss[k].clients)
  }

  /** Removing a server from a consistent document keeps it consistent and drops exactly its ID. */
  lemma RemoveServerIds(ss: seq<Server>, i: nat)
    requires i < |ss| && Consistent(ss)
    ensures Consistent(RemoveAt(ss, i))
    ensures ServerIds(RemoveAt(ss, i)) == ServerIds(ss) - {ss[i].id}
  {
    var r := RemoveAt(ss, i);
    forall x | x in ServerIds(ss) - {ss[i].id}
      ensures x in ServerIds(r)
    {
      var k :| 0 <= k < |ss| && ss[k].id == x;
      if k < i { assert r[k].id == x; } else { assert r[k - 1].id == x; }
    }
  }

  /** Removing a client from a list with unique IDs keeps them unique and drops exactly its ID. */
  lemma RemoveClientIds(cs: seq<Client>, j: nat)
    requires j < |cs| && DistinctClientIds(cs)
    ensures DistinctClientIds(RemoveAt(cs, j))
    ensures ClientIds(RemoveAt(cs, j)) == ClientIds(cs) - {cs[j].id}
  {
    var r := RemoveAt(cs, j);
    forall x | x in ClientIds(cs) - {cs[j].id}
      ensures x in ClientIds(r)
    {
      var k :| 0 <= k < |cs| && cs[k].id == x;
      if k < j { assert r[k].id == x; } else { assert r[k - 1].id == x; }
    }
  }

  /** In a document with unique server IDs, the server found for `id` is the only one carrying it. */
  lemma FindServerUnique(ss: seq<Server>, id: string)
    requires DistinctServerIds(ss)
    ensures FindServer(ss, id).Some? <==> id in ServerIds(ss)
    ensures forall k :: 0 <= k < |ss| && ss[k].id == id ==> FindServer(ss, id) == Some(k)
  {
    if id in ServerIds(ss) {
      var k :| 0 <= k < |ss| && ss[k].id == id;
    }
  }

  /** Appending a server with a fresh ID and an empty client list keeps the document consistent. */
  lemma AppendServerIds(ss: seq<Server>, s: Server)
    requires Consistent(ss) && s.id !in ServerIds(ss) && s.clients == []
    ensures Consistent(ss + [s])
    ensures ServerIds(ss + [s]) == ServerIds(ss) + {s.id}
  {
    var r := ss + [s];
    forall k | 0 <= k < |ss|
      ensures r[k].id != s.id
    {
      assert ss[k].id in ServerIds(ss);
    }
    forall x | x in ServerIds(ss) + {s.id}
      ensures x in ServerIds(r)
    {
      if x == s.id {
        assert r[|ss|].id == x;
      } else {
        var k :| 0 <= k < |ss| && ss[k].id == x;
        assert r[k].id == x;
      }
    }
  }

  /** Appending a client with a fresh ID keeps client IDs unique. */
  lemma AppendClientIds(cs: seq<Client>, c: Client)
    requires DistinctClientIds(cs) && c.id !in ClientIds(cs)
    ensures DistinctClientIds(cs + [c])
    ensures ClientIds(cs + [c]) == ClientIds(cs) + {c.id}
  {
    var r := cs + [c];
    forall k | 0 <= k < |cs|
      ensures r[k].id != c.id
    {
      assert cs[k].id in ClientIds(cs);
    }
    forall x | x in ClientIds(cs) + {c.id}
      ensures x in ClientIds(r)
    {
      if x == c.id {
        assert r[|cs|].id == x;
      } else {
        var k :| 0 <= k < |cs| && cs[k].id == x;
        assert r[k].id == x;
      }
    }
  }

  /** Replacing a server by one with the same ID and unique client IDs keeps the document consistent. */
  lemma ReplaceServerIds(ss: seq<Server>, i: nat, s: Server)
    requires i < |ss| && Consistent(ss)
    requires s.id == ss[i].id && DistinctClientIds(s.clients)
    ensures Consistent(ss[i := s])
    ensures ServerIds(ss[i := s]) == ServerIds(ss)
  {
    var r := ss[i := s];
    forall x | x in ServerIds(ss)
      ensures x in ServerIds(r)
    {
      var k :| 0 <= k < |ss| && ss[k].id == x;
      assert r[k].id == x;
    }
  }

  /** Replacing a client by one with the same ID keeps client IDs unique. */
  lemma ReplaceClientIds(cs: seq<Client>, j: nat, c: Client)
    requires j < |cs| && DistinctClientIds(cs) && c.id == cs[j].id
    ensures DistinctClientIds(cs[j := c])
    ensures ClientIds(cs[j := c]) == ClientIds(cs)
  {
    var r := cs[j := c];
    forall x | x in ClientIds(cs)
      ensures x in ClientIds(r)
    {
      var k :| 0 <= k < |cs| && cs[k].id == x;
      assert r[k].id == x;
    }
  }
}
