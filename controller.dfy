/**
 * The todos controller: a cache-aside read path and a write-around write
 * path over three pieces of external state, held here as fields of the
 * controller: the `todos` collection (a sequence of documents), the Redis
 * cache (a map from key to a cached list with its expiry) and the log
 * channel (the sequence of events published so far). Each cache or store
 * call may fail; whether it does is a parameter of the operation. A ghost
 * trace records every external call in the order the controller makes it.
 */
module Controller {
  import opened Wrappers
  import opened Todos

  /** A cached list and the expiry, in seconds, it was stored with. */
  datatype CacheEntry = CacheEntry(items: seq<Item>, expirySeconds: nat)

  /** The operation names published on the log channel. */
  const OperationCreate := "CREATE"
  const OperationDelete := "DELETE"

  /** A published event: the operation name, the user and the todo id. */
  datatype LogEvent = LogEvent(opName: string, username: string, todoId: int)

  /** What an operation answers. */
  datatype Response =
    | OkList(items: seq<Item>)   // status 200 with the list
    | OkItem(item: Item)         // status 200 with the created item
    | NoContent                  // status 204
    | NotFound                   // status 404
    | InternalError              // status 500

  /** One external call, as it appears in the trace. */
  datatype Call =
    | CacheGet(key: string)
    | CacheSet(key: string, items: seq<Item>, expirySeconds: nat)
    | CacheDel(key: string)
    | StoreFind(username: string)
    | StoreFindLatest(username: string)
    | StoreInsert(record: TodoRecord)
    | StoreDeleteOne(username: string, id: int)
    | Publish(event: LogEvent)

  /**
   * The cache after a mutation's invalidation. It writes no entry: the
   * user's list key is gone unless the DEL faulted, and every other key
   * (another user's list included) keeps its entry.
   */
  function Invalidated(cache: map<string, CacheEntry>, username: string, delFails: bool): (c: map<string, CacheEntry>)
    ensures forall k :: k in c ==> k in cache && c[k] == cache[k]
    ensures forall k :: k in cache && k != UserTodosKey(username) ==> k in c
    ensures !delFails ==> UserTodosKey(username) !in c
    ensures delFails ==> c == cache
  {
    if delFails then cache else cache - {UserTodosKey(username)}
  }

  /**
   * The cache agrees with the store: every cached list of a user is the
   * list a miss would build from that user's documents now.
   */
  ghost predicate Coherent(store: seq<TodoRecord>, cache: map<string, CacheEntry>) {
    forall u :: UserTodosKey(u) in cache ==> cache[UserTodosKey(u)].items == Collapse(UserRecords(store, u))
  }

  /** Filling a user's key with the list just built from the store keeps the cache coherent. */
  lemma FillKeepsCoherence(store: seq<TodoRecord>, cache: map<string, CacheEntry>, username: string, expirySeconds: nat)
    requires Coherent(store, cache)
    ensures Coherent(store, cache[UserTodosKey(username) := CacheEntry(Collapse(UserRecords(store, username)), expirySeconds)])
  {
    forall u | UserTodosKey(u) == UserTodosKey(username) ensures u == username {
      UserTodosKeyInjective(u, username);
    }
  }

  /**
   * Inserting a document and then deleting its owner's list key keeps the
   * cache coherent: no other user's documents changed.
   */
  lemma InsertKeepsCoherence(store: seq<TodoRecord>, cache: map<string, CacheEntry>, todo: TodoRecord)
    requires Coherent(store, cache)
    ensures Coherent(store + [todo], Invalidated(cache, todo.username, false))
  {
    var c := Invalidated(cache, todo.username, false);
    forall u | UserTodosKey(u) in c
      ensures c[UserTodosKey(u)].items == Collapse(UserRecords(store + [todo], u))
    {
      assert u != todo.username;
      UserRecordsAppend(store, [todo], u);
      assert UserRecords([todo], u) == [] by {
        assert [todo][..0] == [];
      }
      assert UserRecords(store, u) + [] == UserRecords(store, u);
    }
  }

  /** Deleting one of a user's documents and then their list key keeps the cache coherent. */
  lemma DeleteKeepsCoherence(store: seq<TodoRecord>, cache: map<string, CacheEntry>, username: string, id: int)
    requires Coherent(store, cache)
    ensures Coherent(DeleteOne(store, username, id).remaining, Invalidated(cache, username, false))
  {
    forall u | u != username ensures UserRecords(DeleteOne(store, username, id).remaining, u) == UserRecords(store, u) {
      DeleteOneKeepsOtherUsers(store, username, id, u);
    }
  }

  /**
   * A DEL fault after a write leaves a stale list behind: with alice's empty
   * list cached, a create whose invalidation fails leaves `[]` cached
   * although the store now holds her todo. Only the key's expiry ends it.
   */
  lemma DelFaultLeavesStaleList()
    ensures var todo := TodoRecord("alice", 1, "buy milk", Timestamp(0));
      var cache := map[UserTodosKey("alice") := CacheEntry([], 300)];
      Coherent([], cache) && !Coherent([todo], Invalidated(cache, "alice", true))
  {
  }

  /**
   * The `reduce` of `list`: every document, in the order the store returned
   * them, is assigned into an accumulator keyed by id, whose values are then
   * the answer. The result is the collapsed list: ascending by id, one item
   * per distinct id, each with the content of the last document with that id.
   */
  method ReduceToItems(todos: seq<TodoRecord>) returns (todoList: seq<Item>)
    ensures todoList == Collapse(todos)
    ensures Ascending(todoList) && IdsOf(todoList) == RecordIds(todos)
    ensures forall it :: it in todoList ==> LastContent(todos, it.id) == Some(it.content)
  {
    var acc: seq<Item> := [];
    var i := 0;
    while i < |todos|
      invariant 0 <= i <= |todos|
      invariant acc == Collapse(todos[..i])
    {
      assert todos[..i + 1][..i] == todos[..i];
      acc := Put(acc, ItemOf(todos[i]));
      i := i + 1;
    }
    assert todos[..i] == todos;
    CollapseSpec(todos);
    todoList := acc;
  }

  class TodoController {
    var store: seq<TodoRecord>
    var cache: map<string, CacheEntry>
    var log: seq<LogEvent>
    ghost var trace: seq<Call>
    /** Seconds a cached list lives. */
    const cacheExpiry: nat

    constructor (store0: seq<TodoRecord>, cache0: map<string, CacheEntry>)
      ensures store == store0 && cache == cache0 && log == [] && trace == []
      ensures cacheExpiry == 300
    {
      store := store0;
      cache := cache0;
      log := [];
      trace := [];
      cacheExpiry := 300;
    }

    /** A GET fault reads as a miss, never as an error. */
    method GetFromCache(key: string, getFails: bool) returns (cached: Option<seq<Item>>)
      modifies this`trace
      ensures trace == old(trace) + [CacheGet(key)]
      ensures cached.Some? <==> !getFails && key in cache
      ensures cached.Some? ==> cached.value == cache[key].items
    {
      trace := trace + [CacheGet(key)];
      if getFails || key !in cache {
        cached := None;
      } else {
        cached := Some(cache[key].items);
      }
    }

    /** A SET fault is swallowed: the cache just stays as it was. */
    method SetCache(key: string, items: seq<Item>, expirySeconds: nat, setFails: bool)
      modifies this`cache, this`trace
      ensures trace == old(trace) + [CacheSet(key, items, expirySeconds)]
      ensures cache == if setFails then old(cache) else old(cache)[key := CacheEntry(items, expirySeconds)]
    {
      trace := trace + [CacheSet(key, items, expirySeconds)];
      if !setFails {
        cache := cache[key := CacheEntry(items, expirySeconds)];
      }
    }

    /** A DEL fault is swallowed too. */
    method DeleteFromCache(key: string, delFails: bool)
      modifies this`cache, this`trace
      ensures trace == old(trace) + [CacheDel(key)]
      ensures cache == if delFails then old(cache) else old(cache) - {key}
    {
      trace := trace + [CacheDel(key)];
      if !delFails {
        cache := cache - {key};
      }
    }

    method InvalidateUserCache(username: string, delFails: bool)
      modifies this`cache, this`trace
      ensures trace == old(trace) + [CacheDel(UserTodosKey(username))]
      ensures cache == Invalidated(old(cache), username, delFails)
    {
      DeleteFromCache(UserTodosKey(username), delFails);
    }

    /** Publishing is fire-and-forget: the event is appended and nothing else changes. */
    method LogOperation(opName: string, username: string, todoId: int)
      modifies this`log, this`trace
      ensures log == old(log) + [LogEvent(opName, username, todoId)]
      ensures trace == old(trace) + [Publish(LogEvent(opName, username, todoId))]
    {
      log := log + [LogEvent(opName, username, todoId)];
      trace := trace + [Publish(LogEvent(opName, username, todoId))];
    }

    /**
     * Cache-aside read. A hit (any cached list, the empty one included)
     * is returned as it is, with no store call and no cache write. A miss,
     * or a GET fault, reads the user's documents, collapses them to one
     * item per id in ascending id order, caches that list for
     * `cacheExpiry` seconds (a SET fault is ignored) and returns it. A
     * store fault is a 500 and leaves the cache alone. `list` never
     * changes the store or the log.
     */
    method List(username: string, getFails: bool, findFails: bool, setFails: bool) returns (r: Response)
      modifies this`cache, this`trace
      ensures store == old(store) && log == old(log)
      ensures var key := UserTodosKey(username);
        !getFails && key in old(cache) ==>
          r == OkList(old(cache)[key].items) && cache == old(cache) &&
          trace == old(trace) + [CacheGet(key)]
      ensures var key := UserTodosKey(username);
        (getFails || key !in old(cache)) && findFails ==>
          r == InternalError && cache == old(cache) &&
          trace == old(trace) + [CacheGet(key), StoreFind(username)]
      ensures var key := UserTodosKey(username);
        (getFails || key !in old(cache)) && !findFails ==>
          r == OkList(Collapse(UserRecords(old(store), username))) &&
          cache == (if setFails then old(cache) else old(cache)[key := CacheEntry(r.items, cacheExpiry)]) &&
          trace == old(trace) + [CacheGet(key), StoreFind(username), CacheSet(key, r.items, cacheExpiry)]
    {
      var key := UserTodosKey(username);
      var cached := GetFromCache(key, getFails);
      if cached.Some? {
        return OkList(cached.value);
      }
      trace := trace + [StoreFind(username)];
      if findFails {
        return InternalError;
      }
      var todoList := ReduceToItems(UserRecords(store, username));
      SetCache(key, todoList, cacheExpiry, setFails);
      return OkList(todoList);
    }

    /**
     * Write-around create. The new document gets the next id for the user.
     * A fault of either store call is a 500 with the store, cache and log
     * unchanged. Otherwise the document is inserted, then the user's list
     * key is deleted (never written), then a CREATE event is published, and
     * the answer is the new `{id, content}`.
     */
    method Create(username: string, content: string, now: Timestamp, findFails: bool, insertFails: bool, delFails: bool)
      returns (r: Response)
      modifies this`store, this`cache, this`log, this`trace
      ensures findFails ==>
        r == InternalError && store == old(store) && cache == old(cache) && log == old(log) &&
        trace == old(trace) + [StoreFindLatest(username)]
      ensures !findFails && insertFails ==>
        var todo := TodoRecord(username, NextId(UserRecords(old(store), username)), content, now);
        r == InternalError && store == old(store) && cache == old(cache) && log == old(log) &&
        trace == old(trace) + [StoreFindLatest(username), StoreInsert(todo)]
      ensures !findFails && !insertFails ==>
        var n := NextId(UserRecords(old(store), username));
        var todo := TodoRecord(username, n, content, now);
        r == OkItem(Item(n, content)) &&
        store == old(store) + [todo] &&
        cache == Invalidated(old(cache), username, delFails) &&
        log == old(log) + [LogEvent(OperationCreate, username, n)] &&
        trace == old(trace) + [StoreFindLatest(username), StoreInsert(todo),
                               CacheDel(UserTodosKey(username)), Publish(LogEvent(OperationCreate, username, n))]
    {
      trace := trace + [StoreFindLatest(username)];
      if findFails {
        return InternalError;
      }
      assert store == old(store);
      var nextId := NextId(UserRecords(store, username));
      var todo := TodoRecord(username, nextId, content, now);
      trace := trace + [StoreInsert(todo)];
      if insertFails {
        return InternalError;
      }
      ghost var trace1 := trace;
      assert trace1 == old(trace) + [StoreFindLatest(username), StoreInsert(todo)];
      store := store + [todo];
      InvalidateUserCache(username, delFails);
      LogOperation(OperationCreate, username, todo.id);
      assert trace == trace1 + [CacheDel(UserTodosKey(username)), Publish(LogEvent(OperationCreate, username, nextId))];
      return OkItem(Item(todo.id, todo.content));
    }

    /**
     * Write-around delete of the user's todo with the given id. A store
     * fault is a 500 with nothing changed. When no document matched the
     * answer is 404 and the cache and log are untouched. Otherwise one
     * document is gone, the user's list key is deleted, a DELETE event is
     * published and the answer is 204.
     */
    method Delete(username: string, id: int, deleteFails: bool, delFails: bool) returns (r: Response)
      modifies this`store, this`cache, this`log, this`trace
      ensures var outcome := DeleteOne(old(store), username, id);
        if deleteFails then
          r == InternalError && store == old(store) && cache == old(cache) && log == old(log) &&
          trace == old(trace) + [StoreDeleteOne(username, id)]
        else if outcome.deletedCount == 0 then
          r == NotFound && store == old(store) && cache == old(cache) && log == old(log) &&
          trace == old(trace) + [StoreDeleteOne(username, id)]
        else
          r == NoContent &&
          store == outcome.remaining &&
          cache == Invalidated(old(cache), username, delFails) &&
          log == old(log) + [LogEvent(OperationDelete, username, id)] &&
          trace == old(trace) + [StoreDeleteOne(username, id), CacheDel(UserTodosKey(username)),
                                 Publish(LogEvent(OperationDelete, username, id))]
    {
      trace := trace + [StoreDeleteOne(username, id)];
      if deleteFails {
        return InternalError;
      }
      var outcome := DeleteOne(store, username, id);
      if outcome.deletedCount == 0 {
        DeleteOneSpec(store, username, id);
        return NotFound;
      }
      store := outcome.remaining;
      InvalidateUserCache(username, delFails);
      LogOperation(OperationDelete, username, id);
      return NoContent;
    }
  }

  /**
   * A create whose calls all succeed, followed by a list: whether or not the
   * list's own cache calls fail, the list answers with the created item.
   */
  method CreateThenList(c: TodoController, username: string, content: string, now: Timestamp, getFails: bool, setFails: bool)
    returns (created: Response, listed: Response)
    modifies c
    ensures created.OkItem? && created.item.content == content
    ensures listed.OkList? && created.item in listed.items
  {
    ghost var store0 := c.store;
    created := c.Create(username, content, now, false, false, false);
    CreatedItemIsListed(store0, username, content, now);
    listed := c.List(username, getFails, false, setFails);
  }

  /**
   * A create whose calls all succeed, followed by a delete of the id it
   * returned: the delete succeeds, the store is back as it was, the user's
   * list key is gone and both events are published, in order.
   */
  method CreateThenDelete(c: TodoController, username: string, content: string, now: Timestamp)
    returns (created: Response, deleted: Response)
    modifies c
    ensures created.OkItem? && deleted == NoContent
    ensures c.store == old(c.store)
    ensures UserTodosKey(username) !in c.cache
    ensures c.log == old(c.log) + [LogEvent(OperationCreate, username, created.item.id), LogEvent(OperationDelete, username, created.item.id)]
    ensures forall it :: it in Collapse(UserRecords(c.store, username)) ==> it.id != created.item.id
  {
    ghost var store0 := c.store;
    created := c.Create(username, content, now, false, false, false);
    DeleteUndoesCreate(store0, username, content, now);
    deleted := c.Delete(username, created.item.id, false, false);
    NextIdIsNotListed(store0, username);
  }

  /**
   * The end-to-end run for a user "alice" with an empty store and cache:
   * create, list twice (the second answer comes from the cache), delete,
   * list again; and a delete of an id that does not exist.
   */
  method AliceScenario() {
    var milk := TodoRecord("alice", 1, "buy milk", Timestamp(0));
    var key := UserTodosKey("alice");
    var c := new TodoController([], map[]);
    var created := c.Create("alice", "buy milk", Timestamp(0), false, false, false);
    assert created == OkItem(Item(1, "buy milk"));
    assert c.store == [milk] && key !in c.cache;

    assert [milk][..0] == [];
    assert UserRecords([milk], "alice") == [milk];
    assert Collapse([milk]) == [Item(1, "buy milk")];
    var first := c.List("alice", false, false, false);
    assert first == OkList([Item(1, "buy milk")]);
    var second := c.List("alice", false, false, false);
    assert second == OkList([Item(1, "buy milk")]);
    assert c.trace[|c.trace| - 1] == CacheGet(key);

    assert FirstMatch([milk], "alice", 1) == Some(0);
    var deleted := c.Delete("alice", 1, false, false);
    assert deleted == NoContent;
    assert c.store == [] && key !in c.cache;
    var third := c.List("alice", false, false, false);
    assert third == OkList([]);

    var cacheBefore := c.cache;
    var missing := c.Delete("alice", 99, false, false);
    assert missing == NotFound && c.cache == cacheBefore;
  }

}
