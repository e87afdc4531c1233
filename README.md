# Todos API data-access core, modelled in Dafny

This project models the data-access core of the `todos-api` service of a
small microservice todo application, and proves properties of that model:

- **The todo controller** (`todos-api/todoController.js`). A user's todo list
  is read cache-aside: a Redis hit is answered as is; a miss reads the
  user's documents from the Mongo `todos` collection, collapses them to one
  `{id, content}` item per id, caches that list for 300 seconds and answers
  it. Creates and deletes are write-around: they write the collection, then
  delete the user's list key (never write it), then publish a log event.
  Cache faults are absorbed. A GET fault counts as a miss, and SET and DEL
  faults are no-ops. Every store fault is a 500. The model is the class
  `Controller.TodoController`. Its fields are the collection (a sequence of
  documents), the cache (a map from key to cached list) and the published
  events. A ghost trace records each external call in order. Whether a
  cache or store call fails is a parameter of each operation. The pure
  parts are in module `Todos`: the keys, the id-keyed accumulator of `list`,
  the next-id rule, and the meaning of the `find`, `findOne` and
  `deleteOne` queries.
- **The breaker wiring** (`todos-api/circuitBreaker.js`, module
  `CircuitBreaker`). It holds one shared configuration and five breakers,
  one per collection operation, each forwarding its arguments. `isHealthy`
  is "all five closed" and `getStats` is a five-entry record. A breaker's
  state and statistics are opaque values supplied by the opossum library.
- **The Redis reconnect policy** (`retry_strategy` in `todos-api/server.js`,
  module `RedisRetry`), as a pure function.

The controller calls its collection `this._collection` directly
(todos-api/todoController.js:99, 125, 141, 163), not through the breakers,
so a store fault is always a 500 and never a 503. The `/health` route reads
`todoController._dbCircuitBreaker` (todos-api/routes.js:9-10), a field the
controller's constructor never assigns.

Beyond the source's own promises, the model proves a coherence invariant:
every cached list equals the list a miss would build from the store now.
Three lemmas take the new state that the contracts of `list`, `create` and
`delete` describe, and show that it stays coherent. For `create` and
`delete` this holds unless their DEL call faults. A DEL fault can leave a
stale list until the key expires (`Controller.DelFaultLeavesStaleList`).

## Model

| member | source | states |
|---|---|---|
| `RedisRetry.RetryStrategy` | todos-api/server.js:19-31 | Classifies every input. A refused connection (ECONNREFUSED) is an Error whatever the time or attempt. Otherwise more than an hour of retrying is the Error "Retry time exhausted". Otherwise more than 10 attempts is `undefined`. Every other input gets a delay of exactly attempt*100 ms, at most 1000, so the 2000 ms cap never binds. |
| `RedisRetry.DelayGrowsWithAttempt` | todos-api/server.js:26-30 | For attempts 1 to 10 the delay lies in [100, 1000] ms and strictly increases with the attempt. |
| `CircuitBreaker.CreateDatabaseCircuitBreaker` | todos-api/circuitBreaker.js:8-52 | All five breakers share one configuration: timeout 5000 ms, error threshold 50 %, reset 30000 ms, a 10000 ms rolling window in 10 buckets. Each wraps its own operation, so no two of the five are the same breaker. |
| `CircuitBreaker.Action` | todos-api/circuitBreaker.js:25-52 | A breaker's action calls the matching collection method with its declared arguments unchanged. A missing `options` of find, findOne or updateOne becomes `{}`. |
| `CircuitBreaker.EachOperationReachesItsOwnMethod` | todos-api/circuitBreaker.js:92-97 | The action of the breaker exposed under an operation's name calls that operation's collection method, whatever the arguments. |
| `CircuitBreaker.IsHealthy` | todos-api/circuitBreaker.js:109-115 | Healthy if and only if all five breakers are closed; any one non-closed breaker makes it false. |
| `CircuitBreaker.GetStats` | todos-api/circuitBreaker.js:100-106 | Exactly five entries, keyed by operation name, each holding that operation's own breaker's statistics. |
| `Todos.UserTodosKey` | todos-api/todoController.js:19-21 | The list key is `todos:user:` followed by the username, and nothing else. |
| `Todos.IntToDecimal` | todos-api/todoController.js:24 | The decimal text of any integer id: a minus sign before a negative one and no leading zero, so zero is exactly "0". It reads back as the number and holds no colon. |
| `Todos.TodoKey` | todos-api/todoController.js:23-25 | The item key is `todo:`, the username, a colon, then the id's decimal text. |
| `Todos.UserTodosKeyInjective` | todos-api/todoController.js:19-21 | Equal list keys `todos:user:<username>` mean equal usernames. |
| `Todos.TodoKeyIsNeverAListKey` | todos-api/todoController.js:19-25 | A single-todo key `todo:<username>:<id>` never equals any list key; they differ at the fifth character. |
| `Todos.Put` | todos-api/todoController.js:100-103 | Assigning an item into the id-keyed accumulator keeps it strictly ascending by id. The new item is present, an old item with the same id is replaced, and every other item is kept. |
| `Todos.Collapse` | todos-api/todoController.js:100-105 | The list built from the documents is strictly ascending by id, hence one item per id. |
| `Todos.CollapseSpec` | todos-api/todoController.js:100-105 | The list's ids are exactly the documents' distinct ids. Each item carries the content of the last document with its id. |
| `Todos.UserRecords` | todos-api/todoController.js:99 | The find result is no longer than the store, and every document in it belongs to the user. |
| `Todos.UserRecordsMembers` | todos-api/todoController.js:99 | `find({username})` yields exactly the user's documents. |
| `Todos.LatestTodo` | todos-api/todoController.js:125-128 | The descending-id `findOne` yields null exactly for a user without documents. Otherwise it yields one of the user's documents with the greatest id. |
| `Todos.NextId` | todos-api/todoController.js:125-130 | The next id is 1 for a user without todos. Otherwise it is the greatest id plus one, and larger than every id the user has. |
| `Todos.FirstMatch` | todos-api/todoController.js:163-166 | Finds the first document matching `{id, username}`, or reports that none matches. |
| `Todos.DeleteOne` | todos-api/todoController.js:163-166 | `deleteOne` reports at most one deletion. With none the store is unchanged; with one, exactly one document is gone. |
| `Todos.DeleteOneSpec` | todos-api/todoController.js:163-168 | `deleteOne` deletes at most one document. It deletes none exactly when none matches, and then the store is unchanged. Otherwise it removes one matching document and keeps the rest in order. |
| `Todos.DeleteOneKeepsOtherUsers` | todos-api/todoController.js:163-166 | A delete for one user leaves every other user's documents as they were. |
| `Todos.UserRecordsAppend` | todos-api/todoController.js:99 | `find` over two concatenated stores is the concatenation of the two finds. |
| `Todos.CreatedItemIsListed` | todos-api/todoController.js:99-105 | After a document with the next id is appended, the list built for that user contains the created `{id, content}`. |
| `Todos.NextIdIsNotListed` | todos-api/todoController.js:99-130 | No item of the user's list carries the id the next create will assign. |
| `Todos.CreateKeepsIdsUnique` | todos-api/todoController.js:125-141 | Appending a document with the next id keeps ids unique within each user's documents. |
| `Todos.DeleteKeepsIdsUnique` | todos-api/todoController.js:163-166 | A `deleteOne` keeps ids unique within each user's documents. |
| `Todos.AtMostOneMatch` | todos-api/todoController.js:163-166 | While ids are unique per user, at most one document matches a delete's `{id, username}`. |
| `Todos.DeleteUndoesCreate` | todos-api/todoController.js:130-141 | Deleting the id just assigned removes exactly the document just appended, leaving the store as it was. |
| `Controller.Invalidated` | todos-api/todoController.js:61-79 | Invalidation writes no cache entry. It removes only the user's list key, and only when DEL does not fault. Every other key, including other users' keys, keeps its entry. |
| `Controller.FillKeepsCoherence` | todos-api/todoController.js:108-109 | Caching the list just built from the store keeps every cached list equal to what a miss would build. |
| `Controller.InsertKeepsCoherence` | todos-api/todoController.js:141-145 | Inserting a document and deleting its owner's list key keeps the cache coherent with the store. |
| `Controller.DeleteKeepsCoherence` | todos-api/todoController.js:163-177 | Deleting a document and its owner's list key keeps the cache coherent with the store. |
| `Controller.DelFaultLeavesStaleList` | todos-api/todoController.js:64-70 | Counterexample: a create whose DEL faults leaves the user's old cached list stale. |
| `Controller.ReduceToItems` | todos-api/todoController.js:100-105 | The accumulator loop yields the collapsed list: ascending, one item per distinct id, each with the last document's content. |
| `Controller.TodoController.constructor` | todos-api/todoController.js:9-16 | Starts over the given collection and cache, with no events and a 300-second cache expiry. |
| `Controller.TodoController.GetFromCache` | todos-api/todoController.js:28-45 | A cached list, including the empty one, is a hit. An absent key or a GET fault yields null. Nothing else changes. |
| `Controller.TodoController.SetCache` | todos-api/todoController.js:47-59 | The key holds the list with the given expiry. A SET fault leaves the cache unchanged and is not reported. |
| `Controller.TodoController.DeleteFromCache` | todos-api/todoController.js:61-73 | The key is gone. A DEL fault leaves the cache unchanged and is not reported. |
| `Controller.TodoController.InvalidateUserCache` | todos-api/todoController.js:75-79 | Deletes exactly the user's list key. |
| `Controller.TodoController.LogOperation` | todos-api/todoController.js:188-198 | Appends the event (operation, username, todo id), and nothing else changes. |
| `Controller.TodoController.List` | todos-api/todoController.js:81-116 | A hit answers the cached list, makes no store call and no cache write. A miss or GET fault answers the collapsed list of the user's documents and caches it for 300 s. A store fault is a 500 with the cache unchanged. Store and log never change. |
| `Controller.TodoController.Create` | todos-api/todoController.js:118-154 | A store fault on either call is a 500 with nothing changed. Otherwise: insert the document with the next id, then delete the user's list key, then publish CREATE. The answer is `{id, content}`. |
| `Controller.TodoController.Delete` | todos-api/todoController.js:156-186 | A store fault is a 500 with nothing changed. No match is a 404 with cache and log untouched. Otherwise: one document removed, the user's list key deleted, DELETE published, 204. |
| `Controller.CreateThenList` | todos-api/todoController.js:81-154 | After a create whose calls all succeed, its DEL of the list key included, a list contains the created item, even when that list's own GET or SET faults. |
| `Controller.CreateThenDelete` | todos-api/todoController.js:118-186 | Creating then deleting the returned id restores the store and leaves no list key for the user. It publishes CREATE then DELETE. A list built from the store afterwards has no item with that id. |

## Left out

- Whether firing a breaker reaches its action: opossum rejects a call without running the action while the breaker is Open, or Half-Open with its trial call in flight. That is the library's behaviour; the model covers only the action.
- The circuit-breaker state machine (Closed, Open, Half-Open, rolling error rate, timeouts, rejections) belongs to the opossum library, which is not part of this model. A breaker's state and statistics are opaque values. The state and statistics of newly built breakers are parameters of `CreateDatabaseCircuitBreaker`.
- The breaker event listeners (todos-api/circuitBreaker.js:55-90) only write console lines. They are not modelled; in the model nothing but the library changes a breaker.
- A breaker-guarded store path and a 503 answer: the controller never uses the breakers. The `/health` route reads a `_dbCircuitBreaker` field that the controller never assigns. HTTP routing (todos-api/routes.js), JWT, body parsing, Zipkin tracing and the Mongo connection setup in todos-api/server.js are not part of this model.
- Redis and Mongo client I/O, callbacks and promises: calls are atomic steps, and each call's fault is a parameter. A faulting call is modelled as having changed nothing.
- Cache expiry: an entry records its expiry in seconds, but time does not pass in the model, so no entry expires.
- JSON serialisation of cached lists and events, and a `JSON.parse` failure on a corrupt cached value: lists are stored as values.
- `parseInt` of the route parameter: `delete` takes the id as an integer.
- `createdAt` is a timestamp parameter; the clock is not modelled.
- The trace id carried by a published event, and delivery on the channel: an event is (operation, username, id), appended when published. The publish is not awaited and its failures are not modelled.
- Concurrency: operations are sequential. The read-max-then-insert race of `create` is not modelled, and id uniqueness is not claimed under interleaving.
- Todo ids are natural numbers, listed in ascending order. JavaScript enumerates integer keys in ascending order only below 2^32 - 1; larger or non-integer ids would come in insertion order. `id + 1` is exact here, whereas JavaScript numbers lose precision above 2^53.
- `Todos.LatestTodo` and `Todos.FirstMatch` pick the first qualifying document in store order. Mongo may pick any qualifying document when several share an id. Only the id matters for `create`. While ids are unique per user (`Todos.UniqueIdsPerUser`, kept by creates and deletes), at most one document matches a delete, so the choice makes no difference. `Todos.UserRecords` likewise returns the user's documents in insertion order, while Mongo promises no order for an unsorted `find`. That order matters only when a user has two documents with the same id, which only the create race can produce: then it decides which content the list shows.
- `Todos.IntToDecimal`: prints every integer as plain digits. From 1e21 upward a JavaScript template literal prints exponent form ("1e+21") instead.
- `req.body.content` is taken to be a string; other JSON values are not modelled.
- What the Redis client does with the strategy's answer (stop, error, or reconnect) is library behaviour and is not modelled.
- todos-api/cache-test.js (which repeats the same `retry_strategy`) and frontend/test-frontend.js are live smoke scripts, not part of this model.
