# WireGuard configuration service, modelled in Dafny

This project models the in-memory configuration engine of the WireGuard
`Service` (`backend/modules/wireguard/service.go`). The document is an ordered
sequence of servers, and each server owns an ordered sequence of clients. The
service reads and edits it: look up a server, create, update and delete a
server, add, update and delete a client. When a client brings no address, the
service picks one (`allocateClientIP`).

Files:

- `wrappers.dfy`: `Option` and `Result`.
- `text.dfy`: the string handling the allocator uses. This covers Go's
  `strings.Split` with a one-character separator, `%d` formatting of
  non-negative numbers, and `parseInt`, which is `fmt.Sscanf(s, "%d", &n)`.
- `document.dfy`: the `Server` and `Client` records, lookups by ID, the
  order-preserving splice, and the identity invariant `Consistent`. That
  invariant says server IDs are unique and client IDs are unique within each
  server.
- `allocator.dfy`: `allocateClientIP` as a function, with its lemmas.
- `service.dfy`: the class `WireGuard.Service`. It holds the document in the
  field `servers: seq<Server>` and has one method per operation. The methods
  scan by index with `while` loops and update the field in place.

Modelling choices:

- Some values come from outside the service, so they are passed in as
  parameters:
  - the new UUID;
  - the readings of `time.Now()` (CreateServer reads the clock twice, so it
    takes two readings);
  - the outcome of `GenerateKeyPair` and of `GeneratePresharedKey`;
  - the outcome of `saveConfig` (`None` when the document was written).
- A failed save still returns its error, but the in-memory edit stays applied,
  as in the source.
- The source fills in (mutates) the caller's draft record. The model returns
  that record as an out-parameter (`server` or `client`).
- `StopInterface` becomes a ghost log `stopCalls`. Each entry records the tag
  and the document as it stood when the call was made. This shows that the
  call happens while the server is still listed. Its error is ignored, as in
  the source.
- The service's methods have no preconditions. The ID invariant is kept as an
  implication: if the document was `Consistent` before the call and the new ID
  is fresh, it is `Consistent` afterwards, and its set of server IDs changes
  exactly as the operation says.

Behaviour of the code worth knowing, where one might expect otherwise:

- A failed save does not undo the in-memory edit.
- `DeleteClient` and `UpdateClient` do not stop at the first server with the
  given ID. When that server has no such client, the scan goes on to later
  servers with the same ID (`Document.FindClientEntry`).
- "Not found" has three messages:
  - "server does not exist" for `GetServer`, `UpdateServer`, `DeleteServer`
    and `AddClient`;
  - a bare "does not exist" for `DeleteClient`;
  - "client does not exist" for `UpdateClient`.
- `AddClient` wraps generator errors. `CreateServer` returns them unchanged.
- `UpdateServer` takes MTU and DNS from the draft as they are. It does not fill
  in the defaults again.

## Model

| member | source | states |
|---|---|---|
| `Text.Split` | backend/modules/wireguard/service.go:184-185 | `strings.Split` gives at least one piece. No piece holds the separator, and every character of a piece comes from the input. |
| `Text.JoinSplit` | backend/modules/wireguard/service.go:184-185 | Joining the pieces of a split with the separator gives back the original string. |
| `Text.SplitJoin` | backend/modules/wireguard/service.go:202-203 | Splitting a join of separator-free pieces gives back exactly those pieces. |
| `Text.NatToString` | backend/modules/wireguard/service.go:214 | `%d` of a non-negative number is a non-empty run of decimal digits. It starts with `0` only for zero, and zero prints as `0` alone. |
| `Text.DigitsOfNat` | backend/modules/wireguard/service.go:214 | The digits `%d` prints denote the number printed. |
| `Text.LeadingDigits` | backend/modules/wireguard/service.go:225 | The digits `%d` scanning consumes are the longest digit run at the start, and they are followed by a non-digit or by the end. |
| `Text.SkipSpace` | backend/modules/wireguard/service.go:225 | The scanner skips white space up to the first character that is not white space, or up to a newline, which it stops at. What is left is a suffix of the input. |
| `Text.SkipSpaceOfSpaces` | backend/modules/wireguard/service.go:225 | White space without a newline, followed by a non-space or a newline or the end, is skipped entirely, and exactly that. |
| `Text.ParseInt` | backend/modules/wireguard/service.go:223-227 | `parseInt` succeeds only with a value in the 64-bit `int` range. |
| `Text.ScanNumber` | backend/modules/wireguard/service.go:223-227 | The number read once white space is skipped is always in the 64-bit `int` range. |
| `Text.ParseIntSkipsSpace` | backend/modules/wireguard/service.go:225 | Leading white space without a newline does not change what `parseInt` returns. |
| `Text.ParseIntSigned` | backend/modules/wireguard/service.go:223-227 | White space, then no sign, `+` or `-`, then a digit run followed by a non-digit or the end, parses as the signed value of the digits when it is in the 64-bit range, and fails when it is not. |
| `Text.ParseIntNoNumber` | backend/modules/wireguard/service.go:223-227 | `parseInt` fails on an empty or all-space input, on a newline before the number, on a first character that is neither sign nor digit, and on a sign with no digit after it. |
| `Text.ParseIntOfDigits` | backend/modules/wireguard/service.go:223-227 | A decimal digit run is read as its value, whatever non-digit text follows it. |
| `Text.ParseNatToString` | backend/modules/wireguard/service.go:196-197 | Parsing the `%d` form of a number gives the number back: printing and parsing are a round trip. |
| `Document.FindServer` | backend/modules/wireguard/service.go:85-90 | The scan finds the first server with the ID. None before it has that ID, and "not found" means no server has it. |
| `Document.FindClient` | backend/modules/wireguard/service.go:235-236 | The scan finds the first client with the ID, and "not found" means no client has it. |
| `Document.FindClientEntry` | backend/modules/wireguard/service.go:233-243 | The entry found is in the first server with the server ID that holds the client, at that client's first position. Every earlier server with that ID lacks the client, and "not found" means no server with the ID holds it. |
| `Document.RemoveAt` | backend/modules/wireguard/service.go:129 | The splice drops exactly one element and keeps the others in their relative order. |
| `Document.RemoveServerIds` | backend/modules/wireguard/service.go:129 | Removing a server from a consistent document keeps it consistent. The ID set loses exactly that server's ID. |
| `Document.RemoveClientIds` | backend/modules/wireguard/service.go:237 | Removing a client keeps client IDs unique. The ID set loses exactly that client's ID. |
| `Document.FindServerUnique` | backend/modules/wireguard/service.go:85-90 | With unique IDs, a server is found exactly when its ID is in the document, and the one found is the only server with that ID. |
| `Document.AppendServerIds` | backend/modules/wireguard/service.go:116 | Appending a server with a fresh ID and no clients keeps the document consistent and adds exactly that ID. |
| `Document.AppendClientIds` | backend/modules/wireguard/service.go:174 | Appending a client with a fresh ID keeps client IDs unique and adds exactly that ID. |
| `Document.ReplaceServerIds` | backend/modules/wireguard/service.go:258 | Overwriting a server with one of the same ID keeps the document consistent, and the ID set is the same. |
| `Document.ReplaceClientIds` | backend/modules/wireguard/service.go:274-277 | Overwriting a client with one of the same ID keeps client IDs unique, and the ID set is the same. |
| `Allocator.Octets` | backend/modules/wireguard/service.go:184-185 | The dot-separated parts of the address before its `/`. There is at least one part, and no part holds a `.` or a `/`. |
| `Allocator.HostOctet` | backend/modules/wireguard/service.go:195-208 | The fourth octet is read only from an address with exactly four parts, and when it parses it is in the 64-bit range. |
| `Allocator.UsedOctetsMembers` | backend/modules/wireguard/service.go:193-209 | An octet is in use exactly when it is the server's own fourth octet or the fourth octet of some client's allowed-IP. |
| `Allocator.AllocateClientIP` | backend/modules/wireguard/service.go:182-220 | The result is `10.0.0.2/32` when the address does not have four parts. Otherwise it is `P.N/32` under the server's prefix, with `N` a free octet of 2..254 or `len(clients)+2`. |
| `Allocator.FirstFree` | backend/modules/wireguard/service.go:212-216 | The scan over 2..254 returns an unused octet, and every octet before it is used. "None" means all of them are used. |
| `Allocator.AllocateClientIPSpec` | backend/modules/wireguard/service.go:182-220 | The result is `10.0.0.2/32` when the address before `/` does not have four dot-separated parts. Otherwise it is `P.N/32`, where `N` is the least free octet of 2..254. When all those octets are used, it is `P.(len(clients)+2)/32`. |
| `Allocator.OctetsOfHostAddress` | backend/modules/wireguard/service.go:190-219 | An address built as `P.N/32`, for any `N` in the 64-bit range, splits back into the three prefix parts and `N`, and its host octet parses as `N`. |
| `Allocator.AllocatedIsFresh` | backend/modules/wireguard/service.go:190-216 | When an octet is free, the allocated address is under the server's prefix. Its host octet is in 2..254, is neither the server's nor any client's, and is the least such octet. |
| `Allocator.ClientOctetsAppend` | backend/modules/wireguard/service.go:200-209 | Each client adds exactly its own fourth octet to the used set, or nothing when that octet does not parse. |
| `Allocator.SuccessiveAllocationsDiffer` | backend/modules/wireguard/service.go:164-174 | Once a client holding an allocated address is appended, that octet counts as used, so the next allocation (while octets remain) gets a different octet. |
| `Allocator.AllocationIgnoresClientPrefixes` | backend/modules/wireguard/service.go:200-209 | Only the fourth octet of a client address matters. Clients with the same fourth octets give the same allocation. |
| `Allocator.ExhaustionNeedsClients` | backend/modules/wireguard/service.go:193-216 | Using up all of 2..254 takes at least 252 clients. |
| `Allocator.ExhaustedFallback` | backend/modules/wireguard/service.go:218-219 | When 2..254 are all used, the fallback `len(clients)+2` is at least 254. It is either outside 2..254 or already used, so it can collide. |
| `Allocator.FirstTwoAllocations` | backend/modules/wireguard/service.go:182-219 | A server at `10.0.0.1/24` hands out `10.0.0.2/32` first, and `10.0.0.3/32` once a client holds the first address. |
| `WireGuard.Service.constructor` | backend/modules/wireguard/service.go:28-35 | A service starts over the document it loaded, with no stop calls recorded. |
| `WireGuard.Service.GetServers` | backend/modules/wireguard/service.go:75-79 | Returns the servers in document order. |
| `WireGuard.Service.IndexOfServer` | backend/modules/wireguard/service.go:124-125 | The index loop finds exactly the first server with the ID (`FindServer`). |
| `WireGuard.Service.IndexOfClient` | backend/modules/wireguard/service.go:269-272 | The nested index loops find exactly the entry `FindClientEntry` describes. |
| `WireGuard.Service.GetServer` | backend/modules/wireguard/service.go:82-91 | Returns the first server with the ID, or the server-not-found error. |
| `WireGuard.Service.CreateServer` | backend/modules/wireguard/service.go:94-118 | If key generation fails, returns the error with nothing changed. Otherwise appends one server: it has the new ID, the keys, both timestamps and no clients, and MTU 1420 and DNS `1.1.1.1,8.8.8.8` when the draft left them unset. Earlier servers are untouched, and the result is the save's. With a fresh ID, the document stays consistent and gains exactly that ID. |
| `WireGuard.Service.DeleteServer` | backend/modules/wireguard/service.go:121-134 | Removes exactly the first server with the ID and keeps the others in order. Calls stop with its tag exactly when it is enabled, while it is still in the document. An unknown ID gives an error, no change and no stop call. On a consistent document, exactly that ID leaves the ID set. |
| `WireGuard.Service.AddClient` | backend/modules/wireguard/service.go:137-179 | An unknown server ID gives an error with no change. A key-pair or preshared-key failure also gives an error with no change. Otherwise exactly one client is appended, at the end of that server's list: it is enabled, has the new ID and keys, and keeps a given allowed-IP or gets the allocator's one. An empty DNS becomes the server's. Other servers and earlier clients are unchanged. On a consistent document, a client ID new to that server keeps it consistent, and the server IDs stay the same. |
| `WireGuard.Service.DeleteClient` | backend/modules/wireguard/service.go:230-244 | Removes exactly the entry `FindClientEntry` finds and keeps the remaining clients in order. Otherwise returns the not-found error with no change. |
| `WireGuard.Service.UpdateServer` | backend/modules/wireguard/service.go:247-263 | Replaces the first server with the draft's ID by the draft. The replacement keeps the old keys, clients and creation time and gets the new update time. All other servers are unchanged. An unknown ID gives an error and no change. |
| `WireGuard.Service.UpdateClient` | backend/modules/wireguard/service.go:266-288 | Sets the name only when the given one is non-empty and always sets the description and the enabled flag. Every other field and entry is unchanged. Returns the edited client, or the save error, or the client-not-found error with no change. |

## Left out

- `loadConfig` and `saveConfig` (lines 37-57): reading and writing the JSON file is file I/O and library encoding. The constructor takes the loaded document, and each save is a success-or-error parameter. A parse error at start-up is not modelled.
- `sync.RWMutex` locking: each method is treated as one atomic step. Two concurrent `AddClient` calls are covered as two calls in a row (`Allocator.SuccessiveAllocationsDiffer`).
- `IsLinux` and `CheckInstalled` (lines 61-72): queries about the environment.
- `GenerateKeyPair`, `GeneratePresharedKey` and `StopInterface`: external crypto and process execution. This model does not include their code. Their outcomes are parameters, and stop calls are recorded in a ghost log.
- `uuid.New()` and `time.Now()`: their values are parameters.
- Aliasing: `GetServers` returns the live slice and `GetServer` a pointer into it. The model returns values instead.
- Record fields the service never reads or writes individually (such as the listen port) are not modelled. `UpdateServer` copies them from the draft along with everything else.
- The model uses 64-bit `int` for the value `parseInt` scans into.
- Strings are sequences of Unicode scalar values, not bytes. Splitting on `/` and `.` agrees with byte-wise splitting for UTF-8 text. Invalid UTF-8, which the scanner reads as replacement characters, is not modelled.
