/**
 * The value-level part of the todos controller: the cache keys, the shape of
 * a todo document and of the item the API returns, the accumulator that
 * collapses documents into one item per id, the next-id rule, and the
 * meaning of the three collection queries the controller issues.
 */
module Todos {
  import opened Wrappers

  // ---------------------------------------------------------------- keys

  const UserTodosPrefix := "todos:user:"
  const TodoPrefix := "todo:"

  /** The cache key of a user's whole list: the prefix, then the username. */
  function UserTodosKey(username: string): (key: string)
    ensures |key| == |UserTodosPrefix| + |username|
    ensures key[..|UserTodosPrefix|] == UserTodosPrefix && key[|UserTodosPrefix|..] == username
  {
    UserTodosPrefix + username
  }

  predicate IsDigit(c: char) {
    '0' <= c <= '9'
  }

  /** The number a string of decimal digits denotes (most significant first). */
  function DecimalValue(s: string): int
    decreases |s|
  {
    if s == [] then 0 else 10 * DecimalValue(s[..|s| - 1]) + (s[|s| - 1] as int - '0' as int)
  }

  /**
   * The decimal text of a non-negative integer, as a template literal prints
   * it: no leading zero unless the number is zero itself.
   */
  function NatToDecimal(n: nat): (s: string)
    ensures |s| >= 1
    ensures forall i :: 0 <= i < |s| ==> IsDigit(s[i])
    ensures DecimalValue(s) == n
    ensures s[0] == '0' ==> s == "0"
  {
    var d := ['0' + (n % 10) as char];
    if n < 10 then d
    else
      var hi := NatToDecimal(n / 10);
      assert (hi + d)[..|hi + d| - 1] == hi;
      hi + d
  }

  /**
   * The decimal text of an integer: a minus sign before a negative one, and
   * no leading zero. Reading the text back gives the integer.
   */
  function IntToDecimal(n: int): (s: string)
    ensures |s| >= 1
    ensures n < 0 ==> |s| >= 2 && s[0] == '-' && DecimalValue(s[1..]) == -n
    ensures n >= 0 ==> DecimalValue(s) == n
    ensures forall i :: (if n < 0 then 1 else 0) <= i < |s| ==> IsDigit(s[i])
    ensures forall i :: 0 <= i < |s| ==> s[i] != ':'
    ensures n >= 0 && s[0] == '0' ==> s == "0"
    ensures n < 0 ==> s[1] != '0'
  {
    if n < 0 then
      var digits := NatToDecimal(-n);
      assert ("-" + digits)[1..] == digits;
      "-" + digits
    else NatToDecimal(n)
  }

  /**
   * The cache key reserved for a single todo (nothing writes it yet): the
   * prefix, the username, a colon, then the id's decimal text, which holds
   * no colon.
   */
  function TodoKey(username: string, todoId: int): (key: string)
    ensures |key| == |TodoPrefix| + |username| + 1 + |IntToDecimal(todoId)|
    ensures key[..|TodoPrefix|] == TodoPrefix
    ensures key[|TodoPrefix|..|TodoPrefix| + |username|] == username
    ensures key[|TodoPrefix| + |username|] == ':'
    ensures key[|TodoPrefix| + |username| + 1..] == IntToDecimal(todoId)
  {
    var digits := IntToDecimal(todoId);
    var head := TodoPrefix + username;
    var key := head + ([':'] + digits);
    assert key[..|head|] == head && key[|head|..] == [':'] + digits;
    assert head[..|TodoPrefix|] == TodoPrefix && head[|TodoPrefix|..] == username;
    key
  }

  /** Different users never share a list key. */
  lemma UserTodosKeyInjective(a: string, b: string)
    requires UserTodosKey(a) == UserTodosKey(b)
    ensures a == b
  {
    assert a == UserTodosKey(a)[|UserTodosPrefix|..];
    assert b == UserTodosKey(b)[|UserTodosPrefix|..];
  }

  /** A single-todo key is never a list key: the two differ in their fifth character. */
  lemma TodoKeyIsNeverAListKey(username: string, todoId: int, other: string)
    ensures TodoKey(username, todoId) != UserTodosKey(other)
  {
    assert TodoKey(username, todoId)[4] == ':';
    assert UserTodosKey(other)[4] == 's';
  }

  // ---------------------------------------------------------------- documents and items

  /** When a todo was created; the clock is outside the model. */
  datatype Timestamp = Timestamp(epochMs: int)

  /** A document of the `todos` collection. */
  datatype TodoRecord = TodoRecord(username: string, id: nat, content: string, createdAt: Timestamp)

  /** The `{id, content}` shape returned to clients and kept in the cache. */
  datatype Item = Item(id: nat, content: string)

  function ItemOf(t: TodoRecord): Item {
    Item(t.id, t.content)
  }

  /** Strictly ascending by id: hence also one item per id. */
  predicate Ascending(items: seq<Item>) {
    forall i, j :: 0 <= i < j < |items| ==> items[i].id < items[j].id
  }

  function IdsOf(items: seq<Item>): set<nat> {
    set it | it in items :: it.id
  }

  function RecordIds(recs: seq<TodoRecord>): set<nat> {
    set t | t in recs :: t.id
  }

  // ---------------------------------------------------------------- the accumulator

  /**
   * `acc[item.id] = item` on a JavaScript object whose keys are integer ids:
   * such keys are enumerated in ascending numeric order, so the object is an
   * ascending list of items in which assigning an id that is present replaces
   * its item and assigning a new id inserts it in its place.
   */
  function Put(acc: seq<Item>, item: Item): (r: seq<Item>)
    requires Ascending(acc)
    ensures Ascending(r)
    ensures item in r
    ensures forall x :: x in r ==> x == item || (x in acc && x.id != item.id)
    ensures forall x :: x in acc && x.id != item.id ==> x in r
    ensures r[0] == item || (acc != [] && r[0] == acc[0])
    decreases |acc|
  {
    if acc == [] then [item]
    else if acc[0].id == item.id then [item] + acc[1..]
    else if item.id < acc[0].id then [item] + acc
    else [acc[0]] + Put(acc[1..], item)
  }

  /**
   * The list `list` builds from the documents the store returned: each
   * document assigned in turn into the accumulator, then its values taken.
   */
  function Collapse(recs: seq<TodoRecord>): (items: seq<Item>)
    ensures Ascending(items)
    decreases |recs|
  {
    if recs == [] then []
    else Put(Collapse(recs[..|recs| - 1]), ItemOf(recs[|recs| - 1]))
  }

  /** The content of the last document with the given id, if any. */
  function LastContent(recs: seq<TodoRecord>, id: nat): Option<string>
    decreases |recs|
  {
    if recs == [] then None
    else if recs[|recs| - 1].id == id then Some(recs[|recs| - 1].content)
    else LastContent(recs[..|recs| - 1], id)
  }

  /**
   * The collapsed list holds exactly one item per distinct id of the
   * documents (ascending, by Collapse's contract), and each item carries the
   * content of the last document with its id.
   */
  lemma {:induction false} CollapseSpec(recs: seq<TodoRecord>)
    ensures IdsOf(Collapse(recs)) == RecordIds(recs)
    ensures forall it :: it in Collapse(recs) ==> LastContent(recs, it.id) == Some(it.content)
    decreases |recs|
  {
    if recs != [] {
      var pre, last := recs[..|recs| - 1], recs[|recs| - 1];
      assert recs == pre + [last];
      CollapseSpec(pre);
      assert RecordIds(recs) == RecordIds(pre) + {last.id};
    }
  }

  // ---------------------------------------------------------------- the collection's queries

  /** `find({username})`: the user's documents, in the store's order. */
  function UserRecords(store: seq<TodoRecord>, username: string): (recs: seq<TodoRecord>)
    ensures |recs| <= |store|
    ensures forall k :: 0 <= k < |recs| ==> recs[k].username == username
    decreases |store|
  {
    if store == [] then []
    else
      var last := store[|store| - 1];
      UserRecords(store[..|store| - 1], username) + (if last.username == username then [last] else [])
  }

  /** `find({username})` yields exactly the user's documents. */
  lemma {:induction false} UserRecordsMembers(store: seq<TodoRecord>, username: string)
    ensures forall t :: t in UserRecords(store, username) <==> t in store && t.username == username
    decreases |store|
  {
    if store != [] {
      var pre := store[..|store| - 1];
      assert store == pre + [store[|store| - 1]];
      UserRecordsMembers(pre, username);
    }
  }

  /** `findOne(query, {sort: {id: -1}})`: a document with the greatest id, or null when there is none. */
  function LatestTodo(recs: seq<TodoRecord>): (latest: Option<TodoRecord>)
    ensures latest.None? <==> recs == []
    ensures latest.Some? ==> latest.value in recs && forall t :: t in recs ==> t.id <= latest.value.id
    decreases |recs|
  {
    if recs == [] then None
    else
      match LatestTodo(recs[1..])
      case None => Some(recs[0])
      case Some(t) => if recs[0].id >= t.id then Some(recs[0]) else Some(t)
  }

  /**
   * The id `create` assigns: one more than the user's greatest id, or 1 when
   * the user has no todos. It is larger than every id the user already has.
   */
  function NextId(recs: seq<TodoRecord>): (n: nat)
    ensures n >= 1
    ensures forall t :: t in recs ==> t.id < n
    ensures recs == [] ==> n == 1
    ensures recs != [] ==> exists t :: t in recs && t.id == n - 1
  {
    match LatestTodo(recs)
    case None => 1
    case Some(last) => last.id + 1
  }

  predicate Matches(t: TodoRecord, username: string, id: int) {
    t.username == username && t.id == id
  }

  /** The position of the first document matching `{id, username}`, if any. */
  function FirstMatch(store: seq<TodoRecord>, username: string, id: int): (pos: Option<nat>)
    ensures pos.None? ==> forall t :: t in store ==> !Matches(t, username, id)
    ensures pos.Some? ==> pos.value < |store| && Matches(store[pos.value], username, id)
    ensures pos.Some? ==> forall j :: 0 <= j < pos.value ==> !Matches(store[j], username, id)
    decreases |store|
  {
    if store == [] then None
    else if Matches(store[0], username, id) then Some(0)
    else
      match FirstMatch(store[1..], username, id)
      case None => None
      case Some(k) => Some(k + 1)
  }

  /** The outcome of `deleteOne({id, username})`: the remaining documents and `deletedCount`. */
  datatype DeleteOutcome = DeleteOutcome(remaining: seq<TodoRecord>, deletedCount: nat)

  /** `deleteOne` removes the first matching document, if there is one. */
  function DeleteOne(store: seq<TodoRecord>, username: string, id: int): (out: DeleteOutcome)
    ensures out.deletedCount <= 1
    ensures out.deletedCount == 0 ==> out.remaining == store
    ensures out.deletedCount == 1 ==> |out.remaining| == |store| - 1
  {
    match FirstMatch(store, username, id)
    case None => DeleteOutcome(store, 0)
    case Some(i) => DeleteOutcome(store[..i] + store[i + 1..], 1)
  }

  /**
   * `deleteOne` deletes at most one document; it deletes none exactly when no
   * document matches, and then leaves the store as it was; otherwise the one
   * document it removes is a matching one.
   */
  lemma DeleteOneSpec(store: seq<TodoRecord>, username: string, id: int)
    ensures DeleteOne(store, username, id).deletedCount <= 1
    ensures DeleteOne(store, username, id).deletedCount == 0 <==> forall t :: t in store ==> !Matches(t, username, id)
    ensures DeleteOne(store, username, id).deletedCount == 0 ==> DeleteOne(store, username, id).remaining == store
    ensures DeleteOne(store, username, id).deletedCount == 1 ==>
      exists i :: 0 <= i < |store| && Matches(store[i], username, id) &&
        DeleteOne(store, username, id).remaining == store[..i] + store[i + 1..]
  {
  }

  /** `deleteOne` for one user leaves every other user's documents as they were. */
  lemma DeleteOneKeepsOtherUsers(store: seq<TodoRecord>, username: string, id: int, other: string)
    requires other != username
    ensures UserRecords(DeleteOne(store, username, id).remaining, other) == UserRecords(store, other)
  {
    match FirstMatch(store, username, id)
    case None =>
    case Some(i) =>
      var before, gone, after := store[..i], store[i], store[i + 1..];
      assert [gone][..0] == [];
      calc {
        UserRecords(store, other);
        { assert store == (before + [gone]) + after; }
        UserRecords((before + [gone]) + after, other);
        { UserRecordsAppend(before + [gone], after, other); }
        UserRecords(before + [gone], other) + UserRecords(after, other);
        { UserRecordsAppend(before, [gone], other); }
        UserRecords(before, other) + UserRecords([gone], other) + UserRecords(after, other);
        { assert UserRecords([gone], other) == []; }
        UserRecords(before, other) + UserRecords(after, other);
        { UserRecordsAppend(before, after, other); }
        UserRecords(before + after, other);
      }
  }

  /** `find` distributes over a store split in two. */
  lemma {:induction false} UserRecordsAppend(a: seq<TodoRecord>, b: seq<TodoRecord>, username: string)
    ensures UserRecords(a + b, username) == UserRecords(a, username) + UserRecords(b, username)
    decreases |b|
  {
    if b == [] {
      assert a + b == a;
    } else {
      var b', last := b[..|b| - 1], b[|b| - 1];
      assert a + b == (a + b') + [last];
      assert b == b' + [last];
      UserRecordsAppend(a, b', username);
    }
  }

  // ---------------------------------------------------------------- create, then list or delete

  /**
   * After a document with the next id is appended for a user, the list
   * collapsed from that user's documents holds the new item.
   */
  lemma CreatedItemIsListed(store: seq<TodoRecord>, username: string, content: string, now: Timestamp)
    ensures var n := NextId(UserRecords(store, username));
      Item(n, content) in Collapse(UserRecords(store + [TodoRecord(username, n, content, now)], username))
  {
  }

  /** No item the user's list shows before a create carries the id that create will assign. */
  lemma NextIdIsNotListed(store: seq<TodoRecord>, username: string)
    ensures forall it :: it in Collapse(UserRecords(store, username)) ==> it.id != NextId(UserRecords(store, username))
  {
    var recs := UserRecords(store, username);
    CollapseSpec(recs);
    forall it | it in Collapse(recs) ensures it.id != NextId(recs) {
      assert it.id in IdsOf(Collapse(recs));
      var t :| t in recs && t.id == it.id;
    }
  }

  /**
   * Deleting the id that was just assigned removes exactly the document that
   * was just appended: the new id is greater than every id the user had.
   */
  lemma DeleteUndoesCreate(store: seq<TodoRecord>, username: string, content: string, now: Timestamp)
    ensures var n := NextId(UserRecords(store, username));
      DeleteOne(store + [TodoRecord(username, n, content, now)], username, n) == DeleteOutcome(store, 1)
  {
    var recs := UserRecords(store, username);
    UserRecordsMembers(store, username);
    var n := NextId(recs);
    var t := TodoRecord(username, n, content, now);
    var s := store + [t];
    var pos := FirstMatch(s, username, n);
    assert s[|store|] == t && Matches(t, username, n);
    assert pos.Some?;
    assert s[..|store|] + s[|store| + 1..] == store;
  }

  // ---------------------------------------------------------------- ids unique per user

  /** No two documents of one user share an id. */
  ghost predicate UniqueIdsPerUser(store: seq<TodoRecord>) {
    forall i, j :: 0 <= i < j < |store| && store[i].username == store[j].username ==> store[i].id != store[j].id
  }

  /** Appending a document with the next id keeps ids unique per user. */
  lemma CreateKeepsIdsUnique(store: seq<TodoRecord>, username: string, content: string, now: Timestamp)
    requires UniqueIdsPerUser(store)
    ensures UniqueIdsPerUser(store + [TodoRecord(username, NextId(UserRecords(store, username)), content, now)])
  {
    UserRecordsMembers(store, username);
    var s := store + [TodoRecord(username, NextId(UserRecords(store, username)), content, now)];
    forall i, j | 0 <= i < j < |s| && s[i].username == s[j].username ensures s[i].id != s[j].id {
      if j == |store| {
        assert s[i] in UserRecords(store, username);
      }
    }
  }

  /** Deleting a document keeps ids unique per user. */
  lemma DeleteKeepsIdsUnique(store: seq<TodoRecord>, username: string, id: int)
    requires UniqueIdsPerUser(store)
    ensures UniqueIdsPerUser(DeleteOne(store, username, id).remaining)
  {
    match FirstMatch(store, username, id)
    case None =>
    case Some(p) =>
      var r := store[..p] + store[p + 1..];
      forall i, j | 0 <= i < j < |r| && r[i].username == r[j].username ensures r[i].id != r[j].id {
        var i' := if i < p then i else i + 1;
        var j' := if j < p then j else j + 1;
        assert r[i] == store[i'] && r[j] == store[j'];
      }
  }

  /** With ids unique per user, at most one document matches `{id, username}`. */
  lemma AtMostOneMatch(store: seq<TodoRecord>, username: string, id: int, i: nat, j: nat)
    requires UniqueIdsPerUser(store)
    requires i < |store| && j < |store|
    requires Matches(store[i], username, id) && Matches(store[j], username, id)
    ensures i == j
  {
  }
}
