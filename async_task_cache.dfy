/**
 * The task cache that memoises slow asynchronous work (answer validation, feedback
 * translation) in Redis and lets concurrent requests for the same key share one running
 * task. A request is modelled in two steps: `Begin`, up to the point where the request
 * returns a cached value, joins the running task or starts a new one, and `Finish`, when
 * the task it started completes. Redis is the map `redis`; whether a GET or SET reaches it,
 * the serializer and the deserializer are parameters.
 */
module AsyncTaskCaches {
  import opened Wrappers

  type Bytes = seq<bv8>

  /** `settings.async_task_cache_ttl`: two minutes. */
  const DefaultTtl: int := 60 * 2

  /** The time-to-live used for an entry: the one given, or the default. */
  function CacheTtl(ttl: Option<int>): (t: int)
    ensures ttl.Some? ==> t == ttl.value
    ensures ttl.None? ==> t == DefaultTtl
  {
    match ttl
    case Some(v) => v
    case None => DefaultTtl
  }

  /** A Redis entry: the serialized result and the expiry it was set with. */
  datatype Stored = Stored(data: Bytes, ttl: int)

  /** The cache: Redis, the running tasks by key (a task is its number), and the number the
      next task gets. */
  datatype CacheState = CacheState(redis: map<string, Stored>, running: map<string, nat>, nextTask: nat)

  /** Every running task was started before: its number was issued already. */
  predicate TasksIssued(s: CacheState)
  {
    forall k :: k in s.running ==> s.running[k] < s.nextTask
  }

  /** What a request finds: the cached value, the task already running for its key, or the
      new task it started. */
  datatype Lookup<T> = Hit(value: T) | Joined(task: nat) | Started(task: nat)

  /** How a task function ended: with its result, or with an exception. */
  datatype Completion<T> = Returned(value: T) | Raised

  /** The value the GET yields: nothing when Redis cannot be reached, the key is missing,
      its data is empty (falsy), or the deserializer rejects it. */
  function CachedValue<T>(s: CacheState, key: string, redisUp: bool, deserialize: Bytes -> Option<T>): Option<T>
  {
    if redisUp && key in s.redis && |s.redis[key].data| > 0 then deserialize(s.redis[key].data) else None
  }

  /** The first part of `get_or_create_task`: a hit returns the cached value, a key already
      running is awaited, and otherwise a new task is registered under the key. */
  function Begin<T>(s: CacheState, key: string, redisUp: bool, deserialize: Bytes -> Option<T>): (Lookup<T>, CacheState)
  {
    match CachedValue(s, key, redisUp, deserialize)
    case Some(v) => (Hit(v), s)
    case None =>
      if key in s.running then (Joined(s.running[key]), s)
      else (Started(s.nextTask), s.(running := s.running[key := s.nextTask], nextTask := s.nextTask + 1))
  }

  /** `_run_and_cache_task` and the `finally` of `get_or_create_task` for task `task` under
      `key`: a result that serializes is written to Redis when the SET reaches it; the running
      entry is dropped only while it is still this task. The first component is the result
      returned, None when the task raised (the exception propagates). */
  function Finish<T>(s: CacheState, key: string, task: nat, c: Completion<T>,
                     serialize: T -> Option<Bytes>, setReaches: bool, ttl: int): (Option<T>, CacheState)
  {
    var redis :=
      if c.Returned? && serialize(c.value).Some? && setReaches then s.redis[key := Stored(serialize(c.value).value, ttl)]
      else s.redis;
    var running := if key in s.running && s.running[key] == task then s.running - {key} else s.running;
    (if c.Returned? then Some(c.value) else None, s.(redis := redis, running := running))
  }

  /** `clear`: forgets every running task (Redis is untouched). */
  function Clear(s: CacheState): (t: CacheState)
    ensures t.running == map[] && t.redis == s.redis
  {
    s.(running := map[])
  }

  /** A hit returns the deserialized value and starts nothing. */
  lemma HitRunsNothing<T>(s: CacheState, key: string, redisUp: bool, deserialize: Bytes -> Option<T>)
    requires redisUp && key in s.redis && |s.redis[key].data| > 0
    requires deserialize(s.redis[key].data).Some?
    ensures Begin(s, key, redisUp, deserialize) == (Hit(deserialize(s.redis[key].data).value), s)
  {
  }

  /** Data the deserializer rejects, and a Redis that cannot be reached, count as a miss: the
      request goes on exactly as if the key were not cached. */
  lemma UnreadableEntryIsMiss<T>(s: CacheState, key: string, redisUp: bool, deserialize: Bytes -> Option<T>)
    requires !redisUp || (key in s.redis && deserialize(s.redis[key].data).None?)
    ensures Begin(s, key, redisUp, deserialize).0 == Begin(s.(redis := s.redis - {key}), key, redisUp, deserialize).0
    ensures Begin(s, key, redisUp, deserialize).1 == Begin(s.(redis := s.redis - {key}), key, redisUp, deserialize).1.(redis := s.redis)
  {
  }

  /** A second request for a key whose task is still running joins that task and changes
      nothing: the task function runs once however many requests arrive. */
  lemma SecondRequestJoins<T>(s: CacheState, key: string, redisUp: bool, deserialize: Bytes -> Option<T>)
    requires Begin(s, key, redisUp, deserialize).0.Started?
    ensures var s1 := Begin(s, key, redisUp, deserialize).1;
      Begin(s1, key, redisUp, deserialize) == (Joined(Begin(s, key, redisUp, deserialize).0.task), s1)
  {
  }

  /** Starting a task issues a number no running task has. */
  lemma BeginIssuesFreshTask<T>(s: CacheState, key: string, redisUp: bool, deserialize: Bytes -> Option<T>)
    requires TasksIssued(s)
    ensures var (r, s1) := Begin(s, key, redisUp, deserialize);
      && TasksIssued(s1)
      && (r.Started? ==> forall k :: k in s.running ==> s.running[k] != r.task)
      && (r.Joined? ==> key in s.running && r.task == s.running[key])
  {
  }

  /** The running entry is removed only when it is the task that finished: a task started
      after a `clear` under the same key stays registered when the old one completes. */
  lemma OnlyOwnTaskRemoved<T>(s: CacheState, key: string, task: nat, c: Completion<T>,
                              serialize: T -> Option<Bytes>, setReaches: bool, ttl: int)
    requires key in s.running
    ensures var s1 := Finish(s, key, task, c, serialize, setReaches, ttl).1;
      && (s.running[key] == task ==> key !in s1.running)
      && (s.running[key] != task ==> s1.running == s.running)
      && (forall k :: k != key && k in s.running ==> k in s1.running && s1.running[k] == s.running[k])
  {
  }

  /** A task that raised caches nothing and returns nothing. */
  lemma FailureCachesNothing<T>(s: CacheState, key: string, task: nat,
                                serialize: T -> Option<Bytes>, setReaches: bool, ttl: int)
    ensures var (r, s1) := Finish(s, key, task, Raised, serialize, setReaches, ttl);
      r.None? && s1.redis == s.redis
  {
  }

  /** A result that cannot be serialized, or whose SET does not reach Redis, is still
      returned but not cached. */
  lemma UncachedResultStillReturned<T>(s: CacheState, key: string, task: nat, v: T,
                                       serialize: T -> Option<Bytes>, setReaches: bool, ttl: int)
    requires serialize(v).None? || !setReaches
    ensures var (r, s1) := Finish(s, key, task, Returned(v), serialize, setReaches, ttl);
      r == Some(v) && s1.redis == s.redis
  {
  }

  /** Round trip: once a task's result is cached, the next request for the key gets that
      result back without running anything, provided the serialized form is not empty and
      the deserializer inverts the serializer on it. */
  lemma CachedResultServedNext<T>(s: CacheState, key: string, task: nat, v: T,
                                  serialize: T -> Option<Bytes>, deserialize: Bytes -> Option<T>, ttl: int)
    requires serialize(v).Some? && |serialize(v).value| > 0
    requires deserialize(serialize(v).value) == Some(v)
    ensures var (r, s1) := Finish(s, key, task, Returned(v), serialize, true, ttl);
      && r == Some(v)
      && Begin(s1, key, true, deserialize) == (Hit(v), s1)
  {
  }

  /** The cache as the service holds it: the Redis client's contents and the `running_tasks`
      dictionary, updated in place by each request. */
  class AsyncTaskCache {
    var redis: map<string, Stored>
    var running: map<string, nat>
    var nextTask: nat

    function State(): CacheState
      reads this
    {
      CacheState(redis, running, nextTask)
    }

    constructor()
      ensures State() == CacheState(map[], map[], 0)
    {
      redis := map[];
      running := map[];
      nextTask := 0;
    }

    /** The part of `get_or_create_task` before the request awaits: returns the cached
        value, joins the running task, or registers a new one. */
    method GetOrCreateTask<T>(key: string, redisUp: bool, deserialize: Bytes -> Option<T>) returns (r: Lookup<T>)
      modifies this
      ensures (r, State()) == Begin(old(State()), key, redisUp, deserialize)
    {
      var cached: Option<T> := None;
      if redisUp && key in redis && |redis[key].data| > 0 {
        cached := deserialize(redis[key].data);
      }
      if cached.Some? {
        return Hit(cached.value);
      }
      if key in running {
        return Joined(running[key]);
      }
      r := Started(nextTask);
      running := running[key := nextTask];
      nextTask := nextTask + 1;
    }

    /** The task started for `key` completes: `_run_and_cache_task` caches its result, and
        the `finally` block removes the running entry if it is still this task. */
    method CompleteTask<T>(key: string, task: nat, c: Completion<T>, serialize: T -> Option<Bytes>,
                           setReaches: bool, ttl: Option<int>) returns (r: Option<T>)
      modifies this
      ensures (r, State()) == Finish(old(State()), key, task, c, serialize, setReaches, CacheTtl(ttl))
    {
      var cacheTtl := CacheTtl(ttl);
      if c.Returned? {
        var data := serialize(c.value);
        if data.Some? && setReaches {
          redis := redis[key := Stored(data.value, cacheTtl)];
        }
        r := Some(c.value);
      } else {
        r := None;
      }
      if key in running && running[key] == task {
        running := running - {key};
      }
    }

    method ClearRunning()
      modifies this
      ensures State() == Clear(old(State()))
    {
      running := map[];
    }
  }
}
