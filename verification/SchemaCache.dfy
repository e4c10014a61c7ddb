/**
 The schema cache of a session, and the least-recently-used discipline it keeps.

 The cache is a map and an order of its keys, the oldest first. A get that hits and every insert
 move the key to the end; an insert then takes keys from the front until the entries fit; a clear
 forgets both. The discipline is stated on the history alone: the keys a get can hit are the last
 128 different ones touched since the last clear, and the schema is the one inserted last. The
 lemmas relate the two by following what one step does to the last few different keys.
 */
module SchemaCache {
  import opened Wrappers

  /** Keys, which are SQL texts, are only compared with each other. */
  type Key = nat
  type Schema = nat

  const CAPACITY := 128

  // --- The cache, as values ---

  datatype Cache = Cache(entries: map<Key, Schema>, order: seq<Key>)

  const EMPTY := Cache(map[], [])

  function Without(order: seq<Key>, key: Key): seq<Key> {
    if order == [] then []
    else
      var last := order[|order| - 1];
      Without(order[..|order| - 1], key) + if last == key then [] else [last]
  }

  function Touch(order: seq<Key>, key: Key): seq<Key> {
    Without(order, key) + [key]
  }

  /** Takes out the oldest keys until the entries fit. */
  function Evict(c: Cache): Cache
    decreases |c.order|
  {
    if |c.entries| <= CAPACITY || c.order == [] then c
    else Evict(Cache(c.entries - {c.order[0]}, c.order[1..]))
  }

  function Insert(c: Cache, key: Key, schema: Schema): Cache {
    Evict(Cache(c.entries[key := schema], Touch(c.order, key)))
  }

  function Get(c: Cache, key: Key): (Cache, Option<Schema>) {
    if key in c.entries then (c.(order := Touch(c.order, key)), Some(c.entries[key])) else (c, None)
  }

  class SchemaCache {
    var entries: map<Key, Schema>
    var order: seq<Key>

    function State(): Cache
      reads this
    {
      Cache(entries, order)
    }

    constructor ()
      ensures State() == EMPTY
    {
      entries, order := map[], [];
    }

    method TouchKey(key: Key)
      modifies this`order
      ensures order == Touch(old(order), key)
    {
      var kept: seq<Key> := [];
      for i := 0 to |order|
        invariant order == old(order)
        invariant kept == Without(order[..i], key)
      {
        assert order[..i + 1][..i] == order[..i];
        if order[i] != key {
          kept := kept + [order[i]];
        }
      }
      assert order[..|order|] == order;
      order := kept + [key];
    }

    method EvictIfNeeded()
      modifies this
      ensures State() == Evict(old(State()))
    {
      while |entries| > CAPACITY
        invariant Evict(State()) == Evict(old(State()))
        decreases |order|
      {
        if |order| == 0 {
          break;
        }
        var oldest := order[0];
        order := order[1..];
        entries := entries - {oldest};
      }
    }

    method GetSchema(key: Key) returns (schema: Option<Schema>)
      modifies this
      ensures (State(), schema) == Get(old(State()), key)
    {
      if key !in entries {
        return None;
      }
      schema := Some(entries[key]);
      TouchKey(key);
    }

    method InsertSchema(key: Key, schema: Schema)
      modifies this
      ensures State() == Insert(old(State()), key, schema)
    {
      entries := entries[key := schema];
      TouchKey(key);
      EvictIfNeeded();
    }

    method Clear()
      modifies this
      ensures State() == EMPTY
    {
      entries := map[];
      order := [];
    }
  }

  // --- Runs ---

  datatype Op = DoInsert(key: Key, schema: Schema) | DoGet(key: Key) | DoClear

  function Run(ops: seq<Op>): Cache {
    if ops == [] then EMPTY
    else
      var before := Run(ops[..|ops| - 1]);
      match ops[|ops| - 1]
      case DoInsert(key, schema) => Insert(before, key, schema)
      case DoGet(key) => Get(before, key).0
      case DoClear => EMPTY
  }

  /** The keys touched since the last clear, oldest touch first; a get that misses touches
      nothing. */
  function Touches(ops: seq<Op>): seq<Key> {
    if ops == [] then []
    else
      var before := ops[..|ops| - 1];
      match ops[|ops| - 1]
      case DoInsert(key, _) => Touches(before) + [key]
      case DoGet(key) => Touches(before) + if key in Run(before).entries then [key] else []
      case DoClear => []
  }

  /** The schema last inserted for a key since the last clear. */
  function LastInserted(ops: seq<Op>, key: Key): Option<Schema> {
    if ops == [] then None
    else
      match ops[|ops| - 1]
      case DoInsert(k, schema) => if k == key then Some(schema) else LastInserted(ops[..|ops| - 1], key)
      case DoGet(_) => LastInserted(ops[..|ops| - 1], key)
      case DoClear => None
  }

  /** The keys that stand after the last `key`. */
  function Later(touches: seq<Key>, key: Key): set<Key> {
    if touches == [] || touches[|touches| - 1] == key then {}
    else Later(touches[..|touches| - 1], key) + {touches[|touches| - 1]}
  }

  /** One of the `CAPACITY` most recently touched distinct keys: fewer have been touched since. */
  predicate Recent(touches: seq<Key>, key: Key) {
    key in touches && |Later(touches, key)| < CAPACITY
  }

  // --- An unbounded recency list ---

  function Recency(touches: seq<Key>): seq<Key> {
    if touches == [] then [] else Touch(Recency(touches[..|touches| - 1]), touches[|touches| - 1])
  }

  predicate Distinct(order: seq<Key>) {
    order == [] || (order[|order| - 1] !in order[..|order| - 1] && Distinct(order[..|order| - 1]))
  }

  function LastFew(order: seq<Key>, n: nat): seq<Key> {
    if n == 0 || order == [] then [] else LastFew(order[..|order| - 1], n - 1) + [order[|order| - 1]]
  }

  function KeySet(order: seq<Key>): (keys: set<Key>)
    ensures forall k :: k in keys <==> k in order
  {
    set k | k in order
  }

  lemma {:induction false} SnocWithout(order: seq<Key>, last: Key, key: Key)
    ensures Without(order + [last], key) == if last == key then Without(order, key) else Without(order, key) + [last]
  {
    assert (order + [last])[..|order|] == order;
    assert Without(order, key) + [] == Without(order, key);
  }

  lemma {:induction false} SnocLater(order: seq<Key>, last: Key, key: Key)
    ensures Later(order + [last], key) == if last == key then {} else Later(order, key) + {last}
  {
    assert (order + [last])[..|order|] == order;
  }

  lemma {:induction false} SnocDistinct(order: seq<Key>, last: Key)
    ensures Distinct(order + [last]) <==> Distinct(order) && last !in order
  {
    assert (order + [last])[..|order|] == order;
  }

  lemma {:induction false} SnocLastFew(order: seq<Key>, last: Key, n: nat)
    ensures LastFew(order + [last], n) == if n == 0 then [] else LastFew(order, n - 1) + [last]
  {
    assert (order + [last])[..|order|] == order;
  }

  lemma {:induction false} WithoutIn(order: seq<Key>, key: Key, k: Key)
    ensures k in Without(order, key) <==> k in order && k != key
    ensures |Without(order, key)| <= |order|
    ensures key in order ==> |Without(order, key)| < |order|
  {
    if order != [] {
      WithoutIn(order[..|order| - 1], key, k);
    }
  }

  lemma {:induction false} LastFewIn(order: seq<Key>, n: nat, k: Key)
    ensures k in LastFew(order, n) ==> k in order
    ensures |LastFew(order, n)| <= n
  {
    if n > 0 && order != [] {
      LastFewIn(order[..|order| - 1], n - 1, k);
    }
  }

  lemma {:induction false} WithoutDistinct(order: seq<Key>, key: Key)
    requires Distinct(order)
    ensures Distinct(Without(order, key))
    ensures key !in order ==> Without(order, key) == order
  {
    if order != [] {
      var front, last := order[..|order| - 1], order[|order| - 1];
      assert order == front + [last] && Distinct(front) && last !in front;
      hide Without, Distinct;
      WithoutDistinct(front, key);
      WithoutIn(front, key, last);
      SnocWithout(front, last, key);
      SnocDistinct(Without(front, key), last);
    }
  }

  lemma {:induction false} LaterWithout(order: seq<Key>, x: Key, key: Key)
    requires key != x
    ensures Later(Without(order, x), key) == Later(order, key) - {x}
  {
    if order != [] {
      var front, last := order[..|order| - 1], order[|order| - 1];
      LaterWithout(front, x, key);
      assert order == front + [last];
      SnocWithout(front, last, x);
      SnocLater(front, last, key);
      SnocLater(Without(front, x), last, key);
      hide Without, Later;
    }
  }

  lemma {:induction false} TouchFacts(order: seq<Key>, x: Key, key: Key)
    requires Distinct(order)
    ensures Distinct(Touch(order, x)) && |Touch(order, x)| <= |order| + if x in order then 0 else 1
    ensures key in Touch(order, x) <==> key in order || key == x
    ensures Later(Touch(order, x), key) == if key == x then {} else Later(order, key) - {x} + {x}
  {
    hide Without, Later, Distinct;
    WithoutDistinct(order, x);
    WithoutIn(order, x, key);
    WithoutIn(order, x, x);
    SnocDistinct(Without(order, x), x);
    SnocLater(Without(order, x), x, key);
    if key != x {
      LaterWithout(order, x, key);
    }
  }

  /** The recency list has every touched key once, and keeps what was touched later. */
  lemma {:induction false} RecencyFacts(touches: seq<Key>, key: Key)
    ensures Distinct(Recency(touches))
    ensures key in Recency(touches) <==> key in touches
    ensures key in touches ==> Later(Recency(touches), key) == Later(touches, key)
  {
    if touches != [] {
      var front, x := touches[..|touches| - 1], touches[|touches| - 1];
      RecencyFacts(front, key);
      assert touches == front + [x];
      SnocLater(front, x, key);
      TouchFacts(Recency(front), x, key);
      assert Recency(touches) == Touch(Recency(front), x);
      hide Without, Later, Distinct, Touch, Recency;
    }
  }

  lemma {:induction false} LaterIn(order: seq<Key>, key: Key)
    ensures forall k :: k in Later(order, key) ==> k in order
  {
    if order != [] {
      LaterIn(order[..|order| - 1], key);
    }
  }

  /** Of distinct keys, the last `n` are those with fewer than `n` after them. */
  lemma {:induction false} LastFewAre(order: seq<Key>, n: nat, key: Key)
    requires Distinct(order) && key in order
    ensures key in LastFew(order, n) <==> |Later(order, key)| < n
  {
    var front, last := order[..|order| - 1], order[|order| - 1];
    assert order == front + [last];
    SnocLater(front, last, key);
    SnocLastFew(front, last, n);
    if n > 0 && last != key {
      LastFewAre(front, n - 1, key);
      LaterIn(front, key);
      LastFewIn(front, n - 1, last);
      hide Later, LastFew, Distinct;
      assert last !in Later(front, key);
    }
  }

  /** How many of the last `n` are left when a key is struck out. */
  function Left(order: seq<Key>, key: Key, n: nat): nat {
    if key in LastFew(order, n) then n - 1 else n
  }

  lemma {:induction false} WithoutLastFew(order: seq<Key>, key: Key, n: nat)
    requires Distinct(order)
    ensures Without(LastFew(order, n), key) == LastFew(Without(order, key), Left(order, key, n))
  {
    if n > 0 && order != [] {
      var front, last := order[..|order| - 1], order[|order| - 1];
      assert order == front + [last] && Distinct(front) && last !in front;
      hide Without, Distinct, LastFew;
      WithoutLastFew(front, key, n - 1);
      WithoutSnoc(front, last, key, n);
    }
  }

  lemma {:induction false} LastFewDistinct(order: seq<Key>, n: nat)
    requires Distinct(order)
    ensures Distinct(LastFew(order, n))
  {
    if n > 0 && order != [] {
      var front, last := order[..|order| - 1], order[|order| - 1];
      LastFewDistinct(front, n - 1);
      LastFewIn(front, n - 1, last);
      SnocDistinct(LastFew(front, n - 1), last);
    }
  }

  lemma {:induction false} WithoutSnoc(front: seq<Key>, last: Key, key: Key, n: nat)
    requires n > 0 && Distinct(front) && last !in front
    requires Without(LastFew(front, n - 1), key) == LastFew(Without(front, key), Left(front, key, n - 1))
    ensures Without(LastFew(front + [last], n), key)
         == LastFew(Without(front + [last], key), Left(front + [last], key, n))
  {
    hide Without, Distinct, LastFew, Later;
    SnocWithout(front, last, key);
    SnocLastFew(front, last, n);
    if last == key {
      WithoutSame(front, key, n);
    } else {
      WithoutOther(front, last, key, n);
    }
  }

  lemma {:induction false} WithoutAbsent(front: seq<Key>, key: Key, n: nat)
    requires Distinct(front) && key !in front
    ensures Without(front, key) == front && Without(LastFew(front, n), key) == LastFew(front, n)
  {
    hide Without, Distinct, LastFew;
    LastFewDistinct(front, n);
    LastFewIn(front, n, key);
    WithoutDistinct(front, key);
    WithoutDistinct(LastFew(front, n), key);
  }

  lemma {:induction false} WithoutSame(front: seq<Key>, key: Key, n: nat)
    requires n > 0 && Distinct(front) && key !in front
    ensures Without(LastFew(front, n - 1) + [key], key) == LastFew(Without(front, key), n - 1)
  {
    WithoutAbsent(front, key, n - 1);
    hide Without, Distinct, LastFew;
    SnocWithout(LastFew(front, n - 1), key, key);
  }

  lemma {:induction false} WithoutOther(front: seq<Key>, last: Key, key: Key, n: nat)
    requires n > 0 && last != key
    requires Without(LastFew(front, n - 1), key) == LastFew(Without(front, key), Left(front, key, n - 1))
    ensures Without(LastFew(front, n - 1) + [last], key)
         == LastFew(Without(front, key) + [last], Left(front, key, n - 1) + 1)
  {
    hide Without, Distinct, LastFew, Later, Left;
    SnocWithout(LastFew(front, n - 1), last, key);
    SnocLastFew(Without(front, key), last, Left(front, key, n - 1) + 1);
  }

  /** Keeping the last `n` of the last `m`, when that is fewer. */
  lemma {:induction false} LastFewTwice(order: seq<Key>, m: nat, n: nat)
    requires n <= m
    ensures LastFew(LastFew(order, m), n) == LastFew(order, n)
  {
    if n > 0 && order != [] {
      var front, last := order[..|order| - 1], order[|order| - 1];
      var few := LastFew(front, m - 1);
      LastFewTwice(front, m - 1, n - 1);
      assert LastFew(order, m) == few + [last];
      assert LastFew(order, n) == LastFew(front, n - 1) + [last];
      SnocLastFew(few, last, n);
      hide LastFew;
    }
  }

  /** Touching the last few and keeping the last few of that is keeping the last few of
      touching them all. */
  lemma {:induction false} TouchLastFew(order: seq<Key>, key: Key, n: nat)
    requires Distinct(order) && n > 0
    ensures LastFew(Touch(LastFew(order, n), key), n) == LastFew(Touch(order, key), n)
    ensures key in LastFew(order, n) ==> |Touch(LastFew(order, n), key)| <= n
    ensures Distinct(Touch(LastFew(order, n), key)) && |Touch(LastFew(order, n), key)| <= n + 1
  {
    hide Without, Distinct, LastFew, Later;
    var few, rest := LastFew(order, n), Without(order, key);
    WithoutLastFew(order, key, n);
    LastFewDistinct(order, n);
    LastFewIn(order, n, key);
    TouchFacts(few, key, key);
    SnocLastFew(Without(few, key), key, n);
    SnocLastFew(rest, key, n);
    LastFewTwice(rest, Left(order, key, n), n - 1);
  }

  lemma {:induction false} DistinctSize(order: seq<Key>)
    requires Distinct(order)
    ensures |KeySet(order)| == |order|
  {
    if order != [] {
      DistinctSize(order[..|order| - 1]);
      assert KeySet(order) == KeySet(order[..|order| - 1]) + {order[|order| - 1]};
    }
  }

  lemma {:induction false} LastFewAll(order: seq<Key>, n: nat)
    ensures |order| <= n ==> LastFew(order, n) == order
    ensures |order| == n + 1 ==> LastFew(order, n) == order[1..]
  {
    if order != [] && n > 0 {
      LastFewAll(order[..|order| - 1], n - 1);
    }
  }

  lemma {:induction false} DropOldest(order: seq<Key>)
    requires Distinct(order) && order != []
    ensures Distinct(order[1..]) && KeySet(order[1..]) == KeySet(order) - {order[0]}
  {
    if |order| > 1 {
      var front, last := order[..|order| - 1], order[|order| - 1];
      DropOldest(front);
      assert order[1..] == front[1..] + [last];
      SnocDistinct(front[1..], last);
      hide Distinct;
      assert order[0] == front[0];
    }
  }

  /** Eviction keeps the last `CAPACITY` keys and their entries. */
  lemma {:induction false} EvictKeeps(c: Cache)
    requires c.entries.Keys == KeySet(c.order) && Distinct(c.order) && |c.order| <= CAPACITY + 1
    ensures var c' := Evict(c);
            && c'.order == LastFew(c.order, CAPACITY)
            && c'.entries.Keys == KeySet(c'.order)
            && forall k :: k in c'.entries ==> k in c.entries && c'.entries[k] == c.entries[k]
  {
    DistinctSize(c.order);
    LastFewAll(c.order, CAPACITY);
    assert |c.entries| == |c.entries.Keys|;
    if |c.order| > CAPACITY {
      var c1 := Cache(c.entries - {c.order[0]}, c.order[1..]);
      DropOldest(c.order);
      DistinctSize(c1.order);
      assert c1.entries.Keys == KeySet(c1.order);
      assert |c1.entries| == |c1.entries.Keys|;
      hide Distinct, KeySet, LastFew;
      assert Evict(c1) == c1;
    }
  }

  /** The entries are the last `CAPACITY` keys of the recency list, each with the schema last
      inserted for it. */
  ghost predicate Lru(ops: seq<Op>, c: Cache) {
    && c.order == LastFew(Recency(Touches(ops)), CAPACITY)
    && c.entries.Keys == KeySet(c.order)
    && forall k :: k in c.entries ==> LastInserted(ops, k) == Some(c.entries[k])
  }

  lemma {:induction false} SnocOps(ops: seq<Op>, op: Op, key: Key)
    ensures Run(ops + [op]) == match op
                               case DoInsert(k, schema) => Insert(Run(ops), k, schema)
                               case DoGet(k) => Get(Run(ops), k).0
                               case DoClear => EMPTY
    ensures op.DoClear? ==> Touches(ops + [op]) == []
    ensures !op.DoClear? && (op.DoInsert? || op.key in Run(ops).entries) ==>
              Recency(Touches(ops + [op])) == Touch(Recency(Touches(ops)), op.key)
    ensures op.DoGet? && op.key !in Run(ops).entries ==> Touches(ops + [op]) == Touches(ops)
    ensures LastInserted(ops + [op], key)
         == if op.DoClear? then None
            else if op.DoInsert? && op.key == key then Some(op.schema)
            else LastInserted(ops, key)
  {
    assert (ops + [op])[..|ops|] == ops;
    hide Insert, Touch;
    if !op.DoClear? {
      assert (Touches(ops) + [op.key])[..|Touches(ops)|] == Touches(ops);
      assert Touches(ops) + [] == Touches(ops);
    }
  }

  /** What a touch of `key` does to the order of an LRU cache. */
  lemma {:induction false} LruTouch(ops: seq<Op>, c: Cache, key: Key)
    requires Lru(ops, c)
    ensures var order := Touch(c.order, key);
            && LastFew(order, CAPACITY) == LastFew(Touch(Recency(Touches(ops)), key), CAPACITY)
            && Distinct(order) && |order| <= CAPACITY + 1 && KeySet(order) == KeySet(c.order) + {key}
            && (key in c.entries ==> |order| <= CAPACITY)
  {
    hide Distinct, LastFew, Recency, Later, Touches, Run, LastInserted;
    RecencyFacts(Touches(ops), key);
    TouchLastFew(Recency(Touches(ops)), key, CAPACITY);
    TouchKeys(c.order, key);
  }

  lemma {:induction false} TouchKeys(order: seq<Key>, key: Key)
    ensures KeySet(Touch(order, key)) == KeySet(order) + {key}
  {
    forall k
      ensures k in Touch(order, key) <==> k in order || k == key
    {
      WithoutIn(order, key, k);
    }
  }

  lemma {:induction false} LruInsert(ops: seq<Op>, c: Cache, key: Key, schema: Schema)
    requires Lru(ops, c) && c == Run(ops)
    ensures Lru(ops + [DoInsert(key, schema)], Insert(c, key, schema))
  {
    hide Distinct, LastFew, Recency, Later, Touches, Run, LastInserted, Touch, Without, Evict, KeySet;
    var op := DoInsert(key, schema);
    LruTouch(ops, c, key);
    SnocOps(ops, op, key);
    var c1 := Cache(c.entries[key := schema], Touch(c.order, key));
    EvictKeeps(c1);
    var c' := Insert(c, key, schema);
    forall k | k in c'.entries
      ensures LastInserted(ops + [op], k) == Some(c'.entries[k])
    {
      SnocOps(ops, op, k);
    }
  }

  lemma {:induction false} LruHit(ops: seq<Op>, c: Cache, key: Key)
    requires Lru(ops, c) && c == Run(ops) && key in c.entries
    ensures Lru(ops + [DoGet(key)], Get(c, key).0)
  {
    hide Distinct, LastFew, Recency, Later, Touches, Run, LastInserted, Touch, Without;
    var op := DoGet(key);
    LruTouch(ops, c, key);
    LastFewAll(Touch(c.order, key), CAPACITY);
    SnocOps(ops, op, key);
    forall k | k in c.entries
      ensures LastInserted(ops + [op], k) == Some(c.entries[k])
    {
      SnocOps(ops, op, k);
    }
  }

  lemma {:induction false} LruMiss(ops: seq<Op>, c: Cache, key: Key)
    requires Lru(ops, c) && c == Run(ops) && key !in c.entries
    ensures Lru(ops + [DoGet(key)], c)
  {
    SnocOps(ops, DoGet(key), key);
    hide LastFew, Recency, Later, Touches, Run, LastInserted;
    forall k | k in c.entries
      ensures LastInserted(ops + [DoGet(key)], k) == Some(c.entries[k])
    {
      SnocOps(ops, DoGet(key), k);
    }
  }

  lemma {:induction false} RunIsLru(ops: seq<Op>)
    ensures Lru(ops, Run(ops))
  {
    if ops != [] {
      var front, op := ops[..|ops| - 1], ops[|ops| - 1];
      RunIsLru(front);
      assert ops == front + [op];
      hide Lru;
      match op
      case DoInsert(key, schema) =>
        LruInsert(front, Run(front), key, schema);
      case DoGet(key) =>
        if key in Run(front).entries {
          LruHit(front, Run(front), key);
        } else {
          LruMiss(front, Run(front), key);
        }
      case DoClear =>
        LruEmpty(ops);
    } else {
      LruEmpty(ops);
    }
  }

  lemma {:induction false} LruEmpty(ops: seq<Op>)
    requires Touches(ops) == []
    ensures Lru(ops, EMPTY)
  {
  }

  /** After every run: no key is twice in the order, the keys of the entries are those of the
      order and at most `CAPACITY`; and a get hits exactly the `CAPACITY` most recently touched
      keys, with the schema last inserted for the key. */
  lemma {:induction false} CacheIsLru(ops: seq<Op>, key: Key)
    ensures var c := Run(ops);
            && Distinct(c.order) && c.entries.Keys == KeySet(c.order) && |c.entries| == |c.order| <= CAPACITY
            && (Get(c, key).1.Some? <==> Recent(Touches(ops), key))
            && (Get(c, key).1.Some? ==> Get(c, key).1 == LastInserted(ops, key))
  {
    RunIsLru(ops);
    var touches := Touches(ops);
    var c := Run(ops);
    RecencyFacts(touches, key);
    LastFewDistinct(Recency(touches), CAPACITY);
    DistinctSize(c.order);
    LastFewIn(Recency(touches), CAPACITY, key);
    if key in touches {
      LastFewAre(Recency(touches), CAPACITY, key);
    }
    hide Run, Touches, Recency, Later, LastInserted, Distinct, LastFew;
    assert |c.entries| == |c.entries.Keys|;
  }
}
