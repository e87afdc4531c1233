/**
 * The breaker wiring of the todos service: one shared configuration and five
 * circuit breakers, one per collection operation, plus the health and
 * statistics views built over them. The breakers themselves (their
 * Closed/Open/Half-Open machine and their counters) belong to the opossum
 * library, which is not part of this model: here a breaker's state and
 * statistics are opaque values that the library supplies.
 */
module CircuitBreaker {
  /** The configuration record every breaker is constructed with. */
  datatype BreakerOptions = BreakerOptions(
    timeoutMs: nat,
    errorThresholdPercentage: nat,
    resetTimeoutMs: nat,
    rollingCountTimeoutMs: nat,
    rollingCountBuckets: nat,
    name: string,
    group: string)

  const Options := BreakerOptions(
    timeoutMs := 5000,
    errorThresholdPercentage := 50,
    resetTimeoutMs := 30000,
    rollingCountTimeoutMs := 10000,
    rollingCountBuckets := 10,
    name := "MongoDB Circuit Breaker",
    group := "database-operations")

  /** The collection operations that get a breaker each. */
  datatype Operation = Find | FindOne | InsertOne | DeleteOne | UpdateOne

  const AllOperations: set<Operation> := {Find, FindOne, InsertOne, DeleteOne, UpdateOne}

  /** The five names are all the operations there are. */
  lemma EveryOperationListed()
    ensures forall op: Operation :: op in AllOperations
  {
    forall op: Operation ensures op in AllOperations {
      match op
      case Find =>
      case FindOne =>
      case InsertOne =>
      case DeleteOne =>
      case UpdateOne =>
    }
  }

  /** The state opossum reports for a breaker; its transitions are the library's. */
  datatype BreakerState = Closed | Open | HalfOpen

  /** The counters opossum keeps for a breaker, by counter name; opaque here. */
  datatype Stats = Stats(counters: map<string, int>)

  /**
   * One breaker: the collection operation it wraps, the options it was built
   * with, and the state and statistics the library currently reports.
   */
  datatype Breaker = Breaker(action: Operation, options: BreakerOptions, state: BreakerState, stats: Stats)

  /** The object `createDatabaseCircuitBreaker` returns: one breaker per operation. */
  datatype DatabaseBreaker = DatabaseBreaker(
    find: Breaker,
    findOne: Breaker,
    insertOne: Breaker,
    deleteOne: Breaker,
    updateOne: Breaker)

  /** The breaker exposed under an operation's name. */
  function BreakerFor(db: DatabaseBreaker, op: Operation): Breaker {
    match op
    case Find => db.find
    case FindOne => db.findOne
    case InsertOne => db.insertOne
    case DeleteOne => db.deleteOne
    case UpdateOne => db.updateOne
  }

  /**
   * Builds the five breakers. `state0` and `stats0` are what the library
   * reports for a breaker it has just constructed. Every breaker gets the one
   * shared configuration, each wraps its own operation, and so no two of the
   * five are the same breaker.
   */
  function CreateDatabaseCircuitBreaker(state0: BreakerState, stats0: Stats): (db: DatabaseBreaker)
    ensures forall op :: BreakerFor(db, op).action == op
    ensures forall op :: BreakerFor(db, op).options == Options
    ensures forall op :: var o := BreakerFor(db, op).options;
      o.timeoutMs == 5000 && o.errorThresholdPercentage == 50 && o.resetTimeoutMs == 30000 &&
      o.rollingCountTimeoutMs == 10000 && o.rollingCountBuckets == 10
    ensures forall op :: BreakerFor(db, op).state == state0 && BreakerFor(db, op).stats == stats0
    ensures forall op1, op2 :: op1 != op2 ==> BreakerFor(db, op1) != BreakerFor(db, op2)
  {
    DatabaseBreaker(
      Breaker(Find, Options, state0, stats0),
      Breaker(FindOne, Options, state0, stats0),
      Breaker(InsertOne, Options, state0, stats0),
      Breaker(DeleteOne, Options, state0, stats0),
      Breaker(UpdateOne, Options, state0, stats0))
  }

  /** A query, options or update document; its contents are not inspected here. */
  type Doc = map<string, string>

  /** An argument as JavaScript passes it: possibly `undefined` (or omitted). */
  datatype Arg = Undefined | Defined(doc: Doc)

  /** The collection call a breaker's action makes. */
  datatype CollectionCall = CollectionCall(target: Operation, args: seq<Arg>)

  /** The i-th argument of a call; an omitted one reads as `undefined`. */
  function ArgAt(args: seq<Arg>, i: nat): Arg {
    if i < |args| then args[i] else Undefined
  }

  /** A parameter declared `options = {}`: `undefined` becomes the empty document. */
  function OrEmpty(a: Arg): Arg {
    if a.Undefined? then Defined(map[]) else a
  }

  /** How many parameters each action declares (and forwards). */
  function Arity(op: Operation): nat {
    match op
    case Find => 2
    case FindOne => 2
    case InsertOne => 1
    case DeleteOne => 1
    case UpdateOne => 3
  }

  /** The parameter position declared with the default `{}`, if any. */
  predicate IsOptionsSlot(op: Operation, i: nat) {
    (op == Find && i == 1) || (op == FindOne && i == 1) || (op == UpdateOne && i == 2)
  }

  /**
   * The action a breaker wraps for operation `op`: it calls the matching
   * collection method with the arguments it declares, unchanged, except that
   * an omitted `options` becomes `{}`. Arguments beyond the declared ones are
   * dropped. Whether a fired call reaches the action at all is up to the
   * breaker library and is not modelled here.
   */
  function Action(op: Operation, args: seq<Arg>): (c: CollectionCall)
    ensures c.target == op
    ensures |c.args| == Arity(op)
    ensures forall i :: 0 <= i < |c.args| && !IsOptionsSlot(op, i) ==> c.args[i] == ArgAt(args, i)
    ensures forall i :: 0 <= i < |c.args| && IsOptionsSlot(op, i) ==>
      c.args[i] == (if ArgAt(args, i).Undefined? then Defined(map[]) else ArgAt(args, i))
  {
    match op
    case Find => CollectionCall(Find, [ArgAt(args, 0), OrEmpty(ArgAt(args, 1))])
    case FindOne => CollectionCall(FindOne, [ArgAt(args, 0), OrEmpty(ArgAt(args, 1))])
    case InsertOne => CollectionCall(InsertOne, [ArgAt(args, 0)])
    case DeleteOne => CollectionCall(DeleteOne, [ArgAt(args, 0)])
    case UpdateOne => CollectionCall(UpdateOne, [ArgAt(args, 0), ArgAt(args, 1), OrEmpty(ArgAt(args, 2))])
  }

  /** The action of the breaker exposed under `op` calls the collection method `op`, whatever the arguments. */
  lemma EachOperationReachesItsOwnMethod(state0: BreakerState, stats0: Stats, op: Operation, args: seq<Arg>)
    ensures Action(BreakerFor(CreateDatabaseCircuitBreaker(state0, stats0), op).action, args).target == op
  {
  }

  /** "Every breaker is closed" said operation by operation. */
  lemma AllClosedByName(db: DatabaseBreaker)
    ensures (forall op :: BreakerFor(db, op).state == Closed) <==>
      db.find.state == Closed && db.findOne.state == Closed && db.insertOne.state == Closed &&
      db.deleteOne.state == Closed && db.updateOne.state == Closed
  {
    if db.find.state == Closed && db.findOne.state == Closed && db.insertOne.state == Closed &&
       db.deleteOne.state == Closed && db.updateOne.state == Closed
    {
      forall op ensures BreakerFor(db, op).state == Closed {
        match op
        case Find =>
        case FindOne =>
        case InsertOne =>
        case DeleteOne =>
        case UpdateOne =>
      }
    } else {
      assert BreakerFor(db, Find).state != Closed || BreakerFor(db, FindOne).state != Closed ||
        BreakerFor(db, InsertOne).state != Closed || BreakerFor(db, DeleteOne).state != Closed ||
        BreakerFor(db, UpdateOne).state != Closed;
    }
  }

  /** Healthy exactly when all five breakers are closed. */
  function IsHealthy(db: DatabaseBreaker): (healthy: bool)
    ensures healthy <==> forall op :: BreakerFor(db, op).state == Closed
    ensures forall op :: BreakerFor(db, op).state != Closed ==> !healthy
  {
    AllClosedByName(db);
    db.find.state == Closed &&
    db.findOne.state == Closed &&
    db.insertOne.state == Closed &&
    db.deleteOne.state == Closed &&
    db.updateOne.state == Closed
  }

  /** Exactly five entries, one per operation name, each its own breaker's statistics. */
  function GetStats(db: DatabaseBreaker): (s: map<Operation, Stats>)
    ensures s.Keys == AllOperations && |s| == 5
    ensures forall op :: op in s && s[op] == BreakerFor(db, op).stats
  {
    EveryOperationListed();
    map[Find := db.find.stats,
        FindOne := db.findOne.stats,
        InsertOne := db.insertOne.stats,
        DeleteOne := db.deleteOne.stats,
        UpdateOne := db.updateOne.stats]
  }
}
