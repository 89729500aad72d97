# MdevCloudClient session model

A Dafny model of the session object of the Mdev data-cloud client library
(`MdevCloudClient`). The session keeps two pieces of state:

- `isConnectionAuthorized`, the authorization gate. Only the connection test sets it.
- `dataClients`, the local mirror. It is an ordered sequence of client records keyed by `jid`.

Every remote operation first passes the gate. It then sends one request.
It changes the mirror only after the transport reports success.

The transport is not modelled. Each operation receives the `Response` the
service would give to its request: a status, a reason phrase and a decoded
body. The response is ok when the status is in the 2xx range. A ghost log
`sent` records every request the session issues. This is how the contracts
say that a refused operation sends nothing.

Failures are values of `Outcome<T> = Ok(value) | Err(failure)`. The failure
is one of `AuthError`, `ConnectionError`, `FetchError` or `SoftNull`.
`SoftNull` stands for the `null` that get-one and create return. The other
three stand for the errors the source throws. The two failure policies stay
distinguishable (`Failure.Raised`).

Files:

- `cloud_types.dfy` (module `CloudTypes`): the client record, the partial update, responses, failures and requests.
- `mirror.dfy` (module `Mirror`): the mirror as a value. It holds lookup by key (`FindIndex`, `Find`) and two edits: `Upsert` (replace-or-append) and `Without` (filter). It also holds the lemmas about them and about appending a record (`s + [c]`, written inline in `OnCreateClient`).
- `mdev_cloud.dfy` (module `MdevCloud`): the class `MdevCloudClient`, with its fields and its methods.

Behaviour of the code around duplicate keys:

- A successful update replaces only the first record with the key. When the mirror had distinct keys and the server's record carries the requested key, the key occurs exactly once afterwards (`OnUpdateClient`).
- A successful delete removes every match. The mirror shrinks by the number of records with the key (`Without`), so by exactly one exactly when one record has the key. Distinct keys and a present key guarantee that (`DeleteShrinksByOne`).
- Creating a record whose key is already mirrored appends a duplicate. The earlier record then shadows it in `getClient` (`CreateDuplicateShadowed`).

## Model

| member | source | states |
|---|---|---|
| `MdevCloud.MdevCloudClient.constructor` | src/classes/MdevCloud.ts:26-37 | A new session is not authorized, has an empty mirror and has sent nothing. |
| `MdevCloud.MdevCloudClient.AuthErrorVerificator` | src/classes/MdevCloud.ts:51-57 | The gate gives an authorization error exactly when the session is not authorized. That error is a raised one. |
| `MdevCloud.MdevCloudClient.OnTestConnection` | src/classes/MdevCloud.ts:59-71 | Sends one connection request. A non-ok response gives a connection error with its status and leaves the flag as it was. An ok response sets the flag to exactly `wasConnected` and returns the report. The mirror never changes. |
| `MdevCloud.MdevCloudClient.Init` | src/classes/MdevCloud.ts:39-49 | A failed connection test raises and changes only the request log. A report of `wasConnected = false` leaves the flag false and the mirror as it was, with no list request. A report of `true` authorizes the session, then lists: the mirror becomes the listed records, or the list's fetch error is raised and the mirror is kept. |
| `MdevCloud.MdevCloudClient.GetAllClients` | src/classes/MdevCloud.ts:74-76 | Returns a snapshot equal to the mirror, with no request. |
| `MdevCloud.MdevCloudClient.GetClient` | src/classes/MdevCloud.ts:78-80 | Finds a record exactly when some mirrored record has the key. What it finds is the record at the first such position. It reads only, so it cannot change the mirror. |
| `MdevCloud.MdevCloudClient.OnGetClient` | src/classes/MdevCloud.ts:83-96 | Unauthorized: an authorization error and no request. Otherwise: one get-by-key request, then the returned record or a soft null. The mirror is unchanged in every case. |
| `MdevCloud.MdevCloudClient.OnGetAllClients` | src/classes/MdevCloud.ts:98-110 | Unauthorized: an authorization error, no request, mirror kept. Ok response: the mirror becomes exactly the returned sequence, in order, and is returned. Non-ok response: a fetch error with its status, mirror kept. |
| `MdevCloud.MdevCloudClient.OnCreateClient` | src/classes/MdevCloud.ts:112-131 | Unauthorized: an authorization error, no request, mirror kept. Ok response: the mirror becomes old mirror + [created record]. A new key is then found by `GetClient`, and distinct keys stay distinct. A duplicate key leaves the earlier record found first. Non-ok response: a soft null, mirror kept. |
| `MdevCloud.MdevCloudClient.OnUpdateClient` | src/classes/MdevCloud.ts:133-157 | Unauthorized: an authorization error, no request, mirror kept. Ok response: the mirror becomes `Upsert(old, jid, client)` and the server's record is returned. When that record carries `jid`, `GetClient(jid)` finds it, and distinct keys stay distinct with `jid` counted once. Non-ok response: a fetch error, mirror kept. |
| `MdevCloud.MdevCloudClient.OnDeleteClient` | src/classes/MdevCloud.ts:159-171 | Unauthorized: an authorization error, no request, mirror kept. Ok response: returns true, the mirror becomes `Without(old, jid)`, `GetClient(jid)` finds nothing, and distinct keys stay distinct. Non-ok response: a fetch error, mirror kept. |
| `Mirror.FindIndex` | src/classes/MdevCloud.ts:149 | Returns -1 exactly when no record has the key. Otherwise returns the first position whose record has the key. |
| `Mirror.Find` | src/classes/MdevCloud.ts:79 | Gives a record exactly when the key occurs. That record has the key and sits at the first matching position. |
| `Mirror.Without` | src/classes/MdevCloud.ts:169 | A record survives exactly when it was present and has another key. The length drops by the number of records with the key. |
| `Mirror.Upsert` | src/classes/MdevCloud.ts:149-154 | If the key occurs, the length is kept and the first match is replaced. Other positions are unchanged. If the key is absent, the new record is appended at the end. |
| `Mirror.UniqueCountOne` | src/classes/MdevCloud.ts:169 | In a mirror with distinct keys, a present key occurs exactly once. |
| `Mirror.DeleteShrinksByOne` | src/classes/MdevCloud.ts:169 | Deleting a present key from a mirror with distinct keys shortens it by exactly one. |
| `Mirror.WithoutAppend` | src/classes/MdevCloud.ts:169 | Filtering distributes over concatenation, so survivors keep their relative order. |
| `Mirror.WithoutAbsent` | src/classes/MdevCloud.ts:169 | Filtering out an absent key is the identity, so deleting twice equals deleting once. |
| `Mirror.WithoutKeepsUnique` | src/classes/MdevCloud.ts:169 | Filtering keeps keys distinct. |
| `Mirror.UpsertThenFind` | src/classes/MdevCloud.ts:148-154 | After replace-or-append under the record's own key, lookup of that key finds the new record. |
| `Mirror.UpsertKeepsUnique` | src/classes/MdevCloud.ts:148-154 | Replace-or-append under the record's own key keeps keys distinct. The key then occurs exactly once. |
| `Mirror.CreateThenFind` | src/classes/MdevCloud.ts:128-129 | Appending a record with a new key makes lookup of that key find it. Distinct keys stay distinct. |
| `Mirror.CreateDuplicateShadowed` | src/classes/MdevCloud.ts:128-129 | Appending a record whose key is already present leaves lookup unchanged and breaks key distinctness. |

## Left out

- The HTTP transport (`useFetch`, `fetch`, `res.json()`, headers, JSON encoding) is modelled only as a response input. A body that fails to decode as JSON would throw from the transport; the model does not capture that.
- Bodies decoded before `ok` is checked. `useFetch` decodes every body first (src/classes/MdevCloud.ts:19). An ok DELETE with an empty body (status 204) therefore raises and the mirror is not filtered. A non-ok get-one or create whose body is not JSON raises instead of giving the soft null. The model assumes every body decodes.
- Rejected requests. A `fetch` that rejects (a network failure) raises from every operation, get-one and create included, whose non-ok path otherwise gives a soft null. The model only has responses with a status, so it has no such path.
- URL and query-string construction and request-body shapes. The request log records only the request kind, the key and, for create and update, the username or patch.
- Console diagnostics and the `debug` / `showRequest` toggles that `init` stores. They affect output only.
- Error message texts. A failure keeps its kind and, for transport failures, the status and reason phrase.
- Concurrency. Each operation is one atomic step, so races between operations issued without awaiting are not modelled.
- Aliasing. `getAllClients` and `onGetAllClients` return the live array, which later pushes and index assignments alter. The records that `getClient`, `onCreateClient` and `onUpdateClient` return are the very objects stored in the mirror, so a caller that mutates one (its `jid`, say) alters the mirror. In the model the mirror and its records are values, so callers get snapshots.
- Record payload. `createdAt` is an opaque timestamp. `id`, `xp` and `money` are JavaScript numbers (floating point) and are modelled as integers.
- The demo script `test.js` is not part of this model.
