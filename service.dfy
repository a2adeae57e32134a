/**
 * The WireGuard configuration service: the in-memory document and the
 * operations that read and edit it. Every edit is applied to the document and
 * then the document is saved; the outcome of that save, the IDs, the clock
 * readings and the outcomes of key generation are parameters.
 */
module WireGuard {
  import opened Wrappers
  import opened Document
  import Allocator

  const DEFAULT_MTU: int := 1420
  const DEFAULT_DNS: string := "1.1.1.1,8.8.8.8"

  datatype Error =
    | ServerNotFound                 // "the server does not exist"
    | NotFound                       // "does not exist", the single error of DeleteClient
    | ClientNotFound                 // "the client does not exist"
    | KeyGeneration(cause: string)   // the key-pair generator's own error
    | ClientKeyFailed(cause: string) // "generating the key failed: <cause>"
    | PresharedKeyFailed(cause: string)
    | SaveFailed(cause: string)

  datatype Status = Ok | Err(error: Error)

  /** The result of `saveConfig`: `None` when the document was written, otherwise why not. */
  function SaveStatus(save: Option<string>): Status {
    if save.None? then Ok else Err(SaveFailed(save.value))
  }

  /** One call of the stop-interface collaborator, with the document as it stood at that moment. */
  datatype StopCall = StopCall(tag: string, document: seq<Server>)

  class Service {
    var servers: seq<Server>
    ghost var stopCalls: seq<StopCall>

    /** A service over the document read at start-up (empty when there was none). */
    constructor (loaded: seq<Server>)
      ensures servers == loaded && stopCalls == []
    {
      servers := loaded;
      stopCalls := [];
    }

    method GetServers() returns (ss: seq<Server>)
      ensures ss == servers
    {
      ss := servers;
    }

    /** The scan over the servers by index. */
    method IndexOfServer(id: string) returns (found: Option<nat>)
      ensures found == FindServer(servers, id)
    {
      var i := 0;
      while i < |servers|
        invariant 0 <= i <= |servers|
        invariant forall k :: 0 <= k < i ==> servers[k].id != id
      {
        if servers[i].id == id {
          return Some(i);
        }
        i := i + 1;
      }
      return None;
    }

    /** The nested scan over the servers and, in each server with the right ID, its clients. */
    method IndexOfClient(serverId: string, clientId: string) returns (found: Option<(nat, nat)>)
      ensures found == FindClientEntry(servers, serverId, clientId)
    {
      var i := 0;
      while i < |servers|
        invariant 0 <= i <= |servers|
        invariant forall k :: 0 <= k < i && servers[k].id == serverId ==> FindClient(servers[k].clients, clientId).None?
      {
        if servers[i].id == serverId {
          var cs := servers[i].clients;
          var j := 0;
          while j < |cs|
            invariant 0 <= j <= |cs|
            invariant forall m :: 0 <= m < j ==> cs[m].id != clientId
          {
            if cs[j].id == clientId {
              return Some((i, j));
            }
            j := j + 1;
          }
        }
        i := i + 1;
      }
      return None;
    }

    method GetServer(id: string) returns (r: Result<Server, Error>)
      ensures match FindServer(servers, id)
        case Some(i) => r == Success(servers[i])
        case None => r == Failure(ServerNotFound)
    {
      var found := IndexOfServer(id);
      if found.None? {
        return Failure(ServerNotFound);
      }
      return Success(servers[found.value]);
    }

    method CreateServer(draft: Server, keys: Result<KeyPair, string>, newId: string,
                        createdAt: Time, updatedAt: Time, save: Option<string>)
      returns (r: Status, server: Server)
      modifies this
      ensures stopCalls == old(stopCalls)
      ensures keys.Failure? ==> r == Err(KeyGeneration(keys.error)) && server == draft && servers == old(servers)
      ensures keys.Success? ==>
        && server == draft.(id := newId, privateKey := keys.value.privateKey, publicKey := keys.value.publicKey,
                            createdAt := createdAt, updatedAt := updatedAt, clients := [],
                            mtu := if draft.mtu == 0 then DEFAULT_MTU else draft.mtu,
                            dns := if draft.dns == "" then DEFAULT_DNS else draft.dns)
        && servers == old(servers) + [server]
        && r == SaveStatus(save)
      ensures keys.Success? ==> server.mtu != 0 && server.dns != ""
      ensures keys.Success? && old(Consistent(servers)) && newId !in old(ServerIds(servers)) ==>
        Consistent(servers) && ServerIds(servers) == old(ServerIds(servers)) + {newId}
    {
      if keys.Failure? {
        return Err(KeyGeneration(keys.error)), draft;
      }
      server := draft.(id := newId, privateKey := keys.value.privateKey, publicKey := keys.value.publicKey,
                       createdAt := createdAt, updatedAt := updatedAt, clients := []);
      if server.mtu == 0 {
        server := server.(mtu := DEFAULT_MTU);
      }
      if server.dns == "" {
        server := server.(dns := DEFAULT_DNS);
      }
      if Consistent(servers) && newId !in ServerIds(servers) {
        AppendServerIds(servers, server);
      }
      servers := servers + [server];
      r := SaveStatus(save);
    }

    method DeleteServer(id: string, save: Option<string>) returns (r: Status)
      modifies this
      ensures match FindServer(old(servers), id)
        case None => r == Err(ServerNotFound) && servers == old(servers) && stopCalls == old(stopCalls)
        case Some(i) =>
          && servers == RemoveAt(old(servers), i)
          && stopCalls == old(stopCalls) +
               (if old(servers)[i].enabled then [StopCall(old(servers)[i].tag, old(servers))] else [])
          && r == SaveStatus(save)
      ensures old(Consistent(servers)) ==> Consistent(servers) && ServerIds(servers) == old(ServerIds(servers)) - {id}
    {
      var found := IndexOfServer(id);
      if found.None? {
        if Consistent(servers) {
          FindServerUnique(servers, id);
        }
        return Err(ServerNotFound);
      }
      var i := found.value;
      if servers[i].enabled {
        stopCalls := stopCalls + [StopCall(servers[i].tag, servers)];
      }
      if Consistent(servers) {
        RemoveServerIds(servers, i);
      }
      servers := RemoveAt(servers, i);
      r := SaveStatus(save);
    }

    method AddClient(serverId: string, draft: Client, keys: Result<KeyPair, string>, psk: Result<string, string>,
                     newId: string, createdAt: Time, save: Option<string>)
      returns (r: Status, client: Client)
      modifies this
      ensures stopCalls == old(stopCalls)
      ensures match FindServer(old(servers), serverId)
        case None => r == Err(ServerNotFound) && client == draft && servers == old(servers)
        case Some(i) =>
          if keys.Failure? then
            r == Err(ClientKeyFailed(keys.error)) && client == draft && servers == old(servers)
          else if psk.Failure? then
            r == Err(PresharedKeyFailed(psk.error)) && client == draft && servers == old(servers)
          else
            var host := old(servers)[i];
            && client == draft.(id := newId, privateKey := keys.value.privateKey, publicKey := keys.value.publicKey,
                                presharedKey := psk.value, enabled := true, createdAt := createdAt,
                                allowedIPs := if draft.allowedIPs == "" then Allocator.AllocateClientIP(host)
                                              else draft.allowedIPs,
                                dns := if draft.dns == "" then host.dns else draft.dns)
            && servers == old(servers)[i := host.(clients := host.clients + [client])]
            && r == SaveStatus(save)
      ensures old(Consistent(servers))
              && (FindServer(old(servers), serverId).Some? ==>
                    newId !in ClientIds(old(servers)[FindServer(old(servers), serverId).value].clients))
        ==> Consistent(servers) && ServerIds(servers) == old(ServerIds(servers))
    {
      var found := IndexOfServer(serverId);
      if found.None? {
        return Err(ServerNotFound), draft;
      }
      var i := found.value;
      if keys.Failure? {
        return Err(ClientKeyFailed(keys.error)), draft;
      }
      if psk.Failure? {
        return Err(PresharedKeyFailed(psk.error)), draft;
      }
      var host := servers[i];
      client := draft.(id := newId, privateKey := keys.value.privateKey, publicKey := keys.value.publicKey,
                       presharedKey := psk.value, enabled := true, createdAt := createdAt);
      if client.allowedIPs == "" {
        client := client.(allowedIPs := Allocator.AllocateClientIP(host));
      }
      if client.dns == "" {
        client := client.(dns := host.dns);
      }
      var updated := host.(clients := host.clients + [client]);
      if Consistent(servers) && newId !in ClientIds(host.clients) {
        AppendClientIds(host.clients, client);
        ReplaceServerIds(servers, i, updated);
      }
      servers := servers[i := updated];
      r := SaveStatus(save);
    }

    method DeleteClient(serverId: string, clientId: string, save: Option<string>) returns (r: Status)
      modifies this
      ensures stopCalls == old(stopCalls)
      ensures match FindClientEntry(old(servers), serverId, clientId)
        case None => r == Err(NotFound) && servers == old(servers)
        case Some(e) =>
          var host := old(servers)[e.0];
          && servers == old(servers)[e.0 := host.(clients := RemoveAt(host.clients, e.1))]
          && r == SaveStatus(save)
      ensures old(Consistent(servers)) ==> Consistent(servers) && ServerIds(servers) == old(ServerIds(servers))
    {
      var found := IndexOfClient(serverId, clientId);
      if found.None? {
        return Err(NotFound);
      }
      var (i, j) := found.value;
      var host := servers[i];
      var updated := host.(clients := RemoveAt(host.clients, j));
      if Consistent(servers) {
        RemoveClientIds(host.clients, j);
        ReplaceServerIds(servers, i, updated);
      }
      servers := servers[i := updated];
      r := SaveStatus(save);
    }

    method UpdateServer(draft: Server, updatedAt: Time, save: Option<string>) returns (r: Status, server: Server)
      modifies this
      ensures stopCalls == old(stopCalls)
      ensures match FindServer(old(servers), draft.id)
        case None => r == Err(ServerNotFound) && server == draft && servers == old(servers)
        case Some(i) =>
          var previous := old(servers)[i];
          && server == draft.(updatedAt := updatedAt, privateKey := previous.privateKey, publicKey := previous.publicKey,
                              clients := previous.clients, createdAt := previous.createdAt)
          && servers == old(servers)[i := server]
          && r == SaveStatus(save)
      ensures old(Consistent(servers)) ==> Consistent(servers) && ServerIds(servers) == old(ServerIds(servers))
    {
      var found := IndexOfServer(draft.id);
      if found.None? {
        return Err(ServerNotFound), draft;
      }
      var i := found.value;
      var previous := servers[i];
      server := draft.(updatedAt := updatedAt, privateKey := previous.privateKey, publicKey := previous.publicKey,
                       clients := previous.clients, createdAt := previous.createdAt);
      if Consistent(servers) {
        ReplaceServerIds(servers, i, server);
      }
      servers := servers[i := server];
      r := SaveStatus(save);
    }

    method UpdateClient(serverId: string, clientId: string, name: string, description: string, enabled: bool,
                        save: Option<string>)
      returns (r: Result<Client, Error>)
      modifies this
      ensures stopCalls == old(stopCalls)
      ensures match FindClientEntry(old(servers), serverId, clientId)
        case None => r == Failure(ClientNotFound) && servers == old(servers)
        case Some(e) =>
          var host := old(servers)[e.0];
          var edited := host.clients[e.1].(name := if name != "" then name else host.clients[e.1].name,
                                           description := description, enabled := enabled);
          && servers == old(servers)[e.0 := host.(clients := host.clients[e.1 := edited])]
          && r == (if save.None? then Success(edited) else Failure(SaveFailed(save.value)))
      ensures old(Consistent(servers)) ==> Consistent(servers) && ServerIds(servers) == old(ServerIds(servers))
    {
      var found := IndexOfClient(serverId, clientId);
      if found.None? {
        return Failure(ClientNotFound);
      }
      var (i, j) := found.value;
      var host := servers[i];
      var edited := host.clients[j];
      if name != "" {
        edited := edited.(name := name);
      }
      edited := edited.(description := description, enabled := enabled);
      var updated := host.(clients := host.clients[j := edited]);
      if Consistent(servers) {
        ReplaceClientIds(host.clients, j, edited);
        ReplaceServerIds(servers, i, updated);
      }
      servers := servers[i := updated];
      if save.Some? {
        return Failure(SaveFailed(save.value));
      }
      return Success(edited);
    }
  }

  /** An edit with an empty name keeps the name and still applies the description and the enabled flag. */
  method UpdateClientScenario() {
    var laptop := Client("c1", "laptop", "home", "priv", "pub", "psk", "10.0.0.2/32", "1.1.1.1", true, 0);
    var host := Server("s1", "spriv", "spub", "10.0.0.1/24", "wg0", 1420, "1.1.1.1", false, 0, 0, [laptop]);
    var service := new Service([host]);
    var r := service.UpdateClient("s1", "c1", "", "work", false, None);
    assert r == Success(laptop.(description := "work", enabled := false));
    assert r.value.name == "laptop";
  }

  /** Deleting an enabled server stops its interface once, while the server is still listed, then removes it. */
  method DeleteServerScenario() {
    var a := Server("a", "k1", "p1", "10.0.0.1/24", "wg0", 1420, "1.1.1.1", true, 0, 0, []);
    var b := Server("b", "k2", "p2", "10.0.1.1/24", "wg1", 1420, "1.1.1.1", false, 0, 0, []);
    var service := new Service([a, b]);
    var r := service.DeleteServer("a", None);
    assert r == Ok && service.servers == [b];
    assert service.stopCalls == [StopCall("wg0", [a, b])];
    r := service.DeleteServer("a", None);
    assert r == Err(ServerNotFound) && service.servers == [b];
    assert |service.stopCalls| == 1;
  }
}
