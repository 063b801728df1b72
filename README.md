# techies landmines: verified model of the Redis-backed queues

`techies.landmines` provides two queues that keep their items in a Redis
server under one key:

- `Queue`: a FIFO queue over a Redis list. `put` appends with RPUSH, `get`
  removes the head with LPOP, `qsize`/`empty`/`__len__` read LLEN, `full` is
  always false, `task_done` and `join` do nothing.
- `UniQueue`: a deduplicating queue over a Redis sorted set. `put` adds an
  item scored with the current time only when ZSCORE finds no (truthy) score
  for it. `get` takes the first member in ZRANGE order and removes it with
  ZREM. `qsize` is ZCARD. The other methods come from `Queue`, and dispatch
  to `UniQueue`'s `qsize`, `put` and `get`.
- Both share `RedisBase.clear`: DEL the key, then run `initialize` again
  (which does nothing for either queue).

The model has three modules:

- `Store` (store.dfy) is an in-memory stand-in for the Redis commands used.
  A list is a `seq<string>`. A sorted set is a `map<string, nat>` from member
  to score. RPUSH, LPOP, ZSCORE, ZADD and ZREM are functions whose contracts
  give the Redis semantics. ZRANGE key 0 0 is a loop over the members
  (`ZRangeFirst`), proved to return the first member in Redis order:
  ascending score, with equal scores ordered byte-wise by member
  (`LexLess`, `Precedes`, `IsFirst`).
- `Landmines` (landmines.dfy) holds the classes `Queue` and `UniQueue`.
  Each holds the value stored under its key as a field (`list`, `zset`), and
  each method changes that field as the Python method's store commands do.
  `UniPut` and `UniGet` give what `UniQueue.put` and `UniQueue.get` do to
  the sorted set. The methods are proved against them.
- `LandminesProps` (landmines_props.dfy) proves what holds over many calls.
  For `Queue`: FIFO order under any interleaving of puts and gets, and
  draining returns every item. For `UniQueue`: repeated puts are idempotent,
  the first arrival keeps its score, and draining after puts at increasing
  times returns the distinct items in order of first put.

`time.time()` becomes a natural-number clock reading `now`, passed to
`UniQueue.Put`. It is positive, as `time.time()` is. `UniQueue.Valid()`
records that every score is positive. Under it, the source's truthiness
test `if not zscore(...)` means "not a member". The spec functions still
model the truthiness test literally (`Store.Truthy`), zero score included.

`get` on an empty queue returns `None` in the model (`Option.None`). This is
what the code returns: LPOP's nil reply for `Queue`, and `ret = None` for
`UniQueue`. The tests compare that reply with the empty string
(test/landmines_test.py:106, :191; test/stasistrap_test.py:76). The model
follows the code.

## Model

| member | source | states |
|---|---|---|
| `Store.RPush` | techies/landmines.py:53-54 | RPUSH appends at the tail. Earlier items are unchanged, the new last item is x, and the reply is the new length (at least 1). |
| `Store.LPop` | techies/landmines.py:59-60 | LPOP replies None exactly when the list is empty, and then the list stays empty. Otherwise it returns the head, and the rest is the list shortened by exactly one. |
| `Store.ZScore` | techies/landmines.py:78 | ZSCORE replies a score exactly for members, and that score is the member's. |
| `Store.ZAdd` | techies/landmines.py:79 | ZADD makes x a member with the given score and leaves other members' scores alone. It replies 1 for a new member and 0 otherwise. |
| `Store.ZRem` | techies/landmines.py:89-90 | ZREM removes exactly that member and keeps every other member's score. It replies 1 if the member was present. |
| `Store.LexLessAsymmetric` | techies/landmines.py:87 | The member order ZRANGE uses for equal scores never puts a before b and b before a. |
| `Store.LexLessTransitive` | techies/landmines.py:87 | That member order is transitive. |
| `Store.LexLessTotal` | techies/landmines.py:87 | Any two distinct members are ordered one way or the other. |
| `Store.PrecedesTransitive` | techies/landmines.py:87 | ZRANGE order (score, then member) is transitive. |
| `Store.PrecedesTotal` | techies/landmines.py:87 | Of two distinct members, exactly one comes first in ZRANGE order. |
| `Store.FirstUnique` | techies/landmines.py:87 | At most one member precedes all the others. |
| `Store.FirstExists` | techies/landmines.py:87 | A non-empty sorted set has a member that precedes all the others. |
| `Store.First` | techies/landmines.py:87 | Names the member that ZRANGE key 0 0 returns from a non-empty set. |
| `Store.ZRangeFirst` | techies/landmines.py:87 | ZRANGE key 0 0 returns [] for an empty set. Otherwise it returns one element, which comes before every other member: lowest score, ties broken by member order. |
| `Landmines.Queue.constructor` | techies/landmines.py:11-16 | Binding to a key keeps the list already stored there, since `Queue.initialize` does nothing. |
| `Landmines.Queue.Initialize` | techies/landmines.py:32-33 | Queue's initialize changes nothing. |
| `Landmines.Queue.TaskDone` | techies/landmines.py:44-45 | task_done changes nothing: there is no completion tracking. |
| `Landmines.Queue.Join` | techies/landmines.py:47-48 | join changes nothing and does not wait. |
| `Landmines.Queue.Clear` | techies/landmines.py:21-23 | After clear the queue is empty, whatever it held. |
| `Landmines.Queue.Qsize` | techies/landmines.py:35-36 | qsize is the list's length. |
| `Landmines.Queue.Empty` | techies/landmines.py:38-39 | empty holds exactly when the list has no items. |
| `Landmines.Queue.Full` | techies/landmines.py:41-42 | full is always false. |
| `Landmines.Queue.Len` | techies/landmines.py:50-51 | `len(q)` equals qsize, the list's length. |
| `Landmines.Queue.Put` | techies/landmines.py:53-54 | put appends x at the tail as RPUSH does, and replies the new length. |
| `Landmines.Queue.PutNowait` | techies/landmines.py:56-57 | put_nowait has the same effect and reply as put. |
| `Landmines.Queue.Get` | techies/landmines.py:59-60 | get removes and returns the head as LPOP does. On an empty queue it returns None and changes nothing. |
| `Landmines.Queue.GetNowait` | techies/landmines.py:62-63 | get_nowait has the same effect and reply as get. |
| `Landmines.UniPut` | techies/landmines.py:77-81 | A new item is added with score `now` and reply 1. A member with a positive score leaves the set unchanged, with reply 0. A member with a zero (falsy) score is re-scored, with reply 0. |
| `Landmines.UniGet` | techies/landmines.py:83-92 | On an empty set: None, nothing changes. Otherwise: the first member in ZRANGE order. When every score is positive, exactly that member is removed and every other member keeps its score. When its score is zero (falsy), it is returned and the set is left unchanged. |
| `Landmines.UniQueue.constructor` | techies/landmines.py:11-16 | Binding to a key keeps the sorted set already stored there. |
| `Landmines.UniQueue.Initialize` | techies/landmines.py:32-33 | The inherited initialize changes nothing. |
| `Landmines.UniQueue.TaskDone` | techies/landmines.py:44-45 | The inherited task_done changes nothing. |
| `Landmines.UniQueue.Join` | techies/landmines.py:47-48 | The inherited join changes nothing and does not wait. |
| `Landmines.UniQueue.Clear` | techies/landmines.py:21-23 | After clear the set is empty, whatever it held. |
| `Landmines.UniQueue.Qsize` | techies/landmines.py:74-75 | qsize is the number of distinct members (ZCARD). |
| `Landmines.UniQueue.Empty` | techies/landmines.py:38-39 | empty, through the overriding qsize, holds exactly when the set has no members. |
| `Landmines.UniQueue.Full` | techies/landmines.py:41-42 | full is always false. |
| `Landmines.UniQueue.Len` | techies/landmines.py:50-51 | `len(q)` is the number of distinct members. |
| `Landmines.UniQueue.Put` | techies/landmines.py:77-81 | put changes the set and replies as `UniPut` says, and keeps every score positive. |
| `Landmines.UniQueue.PutNowait` | techies/landmines.py:56-57 | put_nowait dispatches to UniQueue.put: same effect and reply. |
| `Landmines.UniQueue.Get` | techies/landmines.py:83-92 | get returns and removes what `UniGet` says: the first member in ZRANGE order, or None on an empty set. Every score stays positive. |
| `Landmines.UniQueue.GetNowait` | techies/landmines.py:62-63 | get_nowait dispatches to UniQueue.get: same effect and reply. |
| `LandminesProps.QueueFifo` | techies/landmines.py:53-60 | FIFO under any interleaving of puts and gets: the items the gets return, then what is left, are the initial items followed by the items put, in put order. |
| `LandminesProps.PutThenGetOnEmpty` | techies/landmines.py:53-60 | On an empty queue, put(x) then get() returns x and leaves the queue empty. |
| `LandminesProps.DrainReturnsAll` | test/stasistrap_test.py:65-69 | `while len(q): q.get()` returns every item of the queue, head first. |
| `LandminesProps.UniDrainLength` | techies/landmines.py:74-75 | Draining a UniQueue returns exactly qsize items. |
| `LandminesProps.RepeatedPut` | techies/landmines.py:77-81 | Idempotence: n >= 1 puts of x add x once, with the first put's score, or keep the score x had. No other member changes. From empty, qsize is 1. |
| `LandminesProps.RepeatedPutThenGetTwice` | test/stasistrap_test.py:72-76 | After n >= 1 puts of x into an empty UniQueue, get returns x and empties it, and a second get returns None. |
| `LandminesProps.PutAllShape` | techies/landmines.py:77-81 | After puts at increasing positive times from empty, the members are exactly the items put. Every score is positive and no later than the last put. |
| `LandminesProps.DrainAppend` | techies/landmines.py:77-92 | A new item put later than every member comes out after all of them. |
| `LandminesProps.UniQueueFifo` | techies/landmines.py:77-92 | After puts at strictly increasing times from empty, draining returns the distinct items in order of first put. qsize is their number. |

## Left out

- Connection setup (`ConnectionPool`, `StrictRedis`, host, port, db; techies/landmines.py:11-14) is network I/O. Each object instead holds the value stored under its key.
- Each object holds its own copy of the value under its key. Two objects bound to the same key therefore do not see each other's writes, and neither does a write made directly through the connection. In the source they do, because the store is the single source of truth.
- The two queues cannot share one key. Redis's WRONGTYPE error is not modelled, so using one key as both a list and a sorted set is outside the model.
- The `block` and `timeout` parameters of put and get have no effect in the source, so they are dropped.
- `time.time()` is a float. It becomes a positive natural-number reading `now`, passed in by the caller.
- Landmines.UniQueue.Put: requires `Valid()` (every score positive) and `now > 0`. Scores written through the class come from `time.time()`, so this holds. A member given score 0 by another writer is outside that invariant. For such a member, the source's `get` would return it without removing it. `UniGet` still states that case.
- Landmines.UniQueue.Get: requires `Valid()`, for the same reason.
- Landmines.UniQueue.constructor: requires every stored score to be positive, for the same reason.
- LandminesProps.UniQueueFifo: assumes strictly increasing clock readings. Two puts in the same clock tick are ordered by member instead, as `Store.ZRangeFirst` states.
- The race windows between ZSCORE and ZADD in put, and between ZSCORE and ZREM in get, only matter with concurrent clients. Operations are modelled as sequential.
- Bytes-to-text decoding of replies is encoding plumbing. Items are strings.
- `RedisBase.initialize` raising `NotImplementedError` is the abstract hook. Without inheritance, each class has its own no-op `Initialize`.
- techies/stasistrap.py (`QueueHandler`) is a logging adapter that calls `put`. techies/compat.py holds Python 2/3 shims. techies/__init__.py and setup.py are metadata. None of them is part of this model.
- `CountQueue` is imported by test/stasistrap_test.py:22, but neither it nor any counter class is defined in techies/landmines.py. None of them is part of this model.
