/** Cached responses for repeated sends, in three tiers: Redis, the memory of the API
    process, and a table. The first two may lose an entry at any time. */
module Idempotency {
  import opened Prelude

  datatype Response = Response(requestId: string, phone: string, expiresAt: int, cost: real)

  /** An application and the client's key; the cache key of the first two tiers. */
  type Key = (nat, string)

  datatype Cached = Cached(response: Response, expiresAt: int)
  datatype Row = Row(key: Key, endpoint: string, response: Response)

  /** memory is keyed by the API process and the key. The table has no unique constraint. */
  datatype Tiers = Tiers(redis: map<Key, Cached>, memory: map<(nat, Key), Response>, table: seq<Row>)

  const EMPTY: Tiers := Tiers(map[], map[], [])

  const TTL: int := 86400 * 1000

  function FindRow(table: seq<Row>, key: Key, endpoint: string): (r: Option<Response>)
    ensures r.Some? ==> exists i :: 0 <= i < |table| && table[i] == Row(key, endpoint, r.value)
    ensures r == None ==> forall i :: 0 <= i < |table| ==> !(table[i].key == key && table[i].endpoint == endpoint)
  {
    if table == [] then None
    else if table[0].key == key && table[0].endpoint == endpoint then
      assert table[0] == Row(key, endpoint, table[0].response);
      Some(table[0].response)
    else
      var r := FindRow(table[1..], key, endpoint);
      assert forall i :: 0 <= i < |table[1..]| ==> table[1..][i] == table[i + 1];
      r
  }

  /** Redis first, then memory, then the table; a tier that is down is passed over. */
  function Lookup(t: Tiers, node: nat, key: Key, endpoint: string, now: int, redisUp: bool, dbUp: bool): Option<Response> {
    if redisUp && key in t.redis && now < t.redis[key].expiresAt then Some(t.redis[key].response)
    else if (node, key) in t.memory then Some(t.memory[(node, key)])
    else if dbUp then FindRow(t.table, key, endpoint)
    else None
  }

  /** Redis and table writes may fail; the memory write does not. */
  function Save(t: Tiers, node: nat, key: Key, endpoint: string, r: Response, now: int, redisUp: bool, dbUp: bool): Tiers {
    Tiers(if redisUp then t.redis[key := Cached(r, now + TTL)] else t.redis,
          t.memory[(node, key) := r],
          if dbUp then t.table + [Row(key, endpoint, r)] else t.table)
  }

  /** Redis drops a key. */
  function Evict(t: Tiers, key: Key): Tiers {
    t.(redis := t.redis - {key})
  }

  /** An API process restarts, with empty memory. */
  function Restart(t: Tiers, node: nat): Tiers {
    t.(memory := map k | k in t.memory && k.0 != node :: t.memory[k])
  }

  /** No tier knows the key. */
  ghost predicate Unused(t: Tiers, key: Key) {
    key !in t.redis && (forall n: nat :: (n, key) !in t.memory) &&
    forall i :: 0 <= i < |t.table| ==> t.table[i].key != key
  }

  /** The table has the response r for the key, and no tier has another one. */
  ghost predicate Settled(t: Tiers, key: Key, endpoint: string, r: Response) {
    (exists i :: 0 <= i < |t.table| && t.table[i] == Row(key, endpoint, r)) &&
    (forall i :: 0 <= i < |t.table| && t.table[i].key == key ==> t.table[i].response == r) &&
    (key in t.redis ==> t.redis[key].response == r) &&
    (forall n: nat :: (n, key) in t.memory ==> t.memory[(n, key)] == r)
  }

  /** A save under an unused key settles it exactly when the table write lands. */
  lemma SaveSettlesIff(t: Tiers, node: nat, key: Key, endpoint: string, r: Response, now: int, redisUp: bool, dbUp: bool)
    requires Unused(t, key)
    ensures Settled(Save(t, node, key, endpoint, r, now, redisUp, dbUp), key, endpoint, r) <==> dbUp
  {
    var s := Save(t, node, key, endpoint, r, now, redisUp, dbUp);
    if dbUp {
      assert s.table[|t.table|] == Row(key, endpoint, r);
    }
  }

  /** Redis, or the memory of the process asked, still has the key. */
  predicate InCaches(t: Tiers, node: nat, key: Key, now: int, redisUp: bool) {
    (redisUp && key in t.redis && now < t.redis[key].expiresAt) || (node, key) in t.memory
  }

  /** After a save under an unused key, a lookup finds the response if and only if the save
      reached Redis, Redis answers, and a day has not passed; or it is the same process; or
      the save reached the table, and the table can be read. */
  lemma SavedAnswersIff(t: Tiers, node: nat, key: Key, endpoint: string, r: Response, now: int, redisUp: bool, dbUp: bool,
                        node': nat, now': int, redisUp': bool, dbUp': bool)
    requires Unused(t, key)
    ensures Lookup(Save(t, node, key, endpoint, r, now, redisUp, dbUp), node', key, endpoint, now', redisUp', dbUp') ==
      if (redisUp && redisUp' && now' < now + 24 * 3600 * 1000) || node' == node || (dbUp && dbUp') then Some(r) else None
  {
    var s := Save(t, node, key, endpoint, r, now, redisUp, dbUp);
    if dbUp {
      SaveSettlesIff(t, node, key, endpoint, r, now, redisUp, dbUp);
      assert FindRow(s.table, key, endpoint) == Some(r) by {
        assert s.table[|t.table|] == Row(key, endpoint, r);
      }
    } else {
      assert FindRow(s.table, key, endpoint) == None;
    }
  }

  /** While a key is settled, a lookup gets its response exactly when it can read the table
      or a cache still has the key, whichever process asks; and never another response. */
  lemma SettledAnswers(t: Tiers, key: Key, endpoint: string, r: Response, node: nat, now: int, redisUp: bool, dbUp: bool)
    requires Settled(t, key, endpoint, r)
    ensures Lookup(t, node, key, endpoint, now, redisUp, dbUp) ==
      if dbUp || InCaches(t, node, key, now, redisUp) then Some(r) else None
  {
    var found := FindRow(t.table, key, endpoint);
    assert found == Some(r);
  }

  lemma LossKeepsSettled(t: Tiers, key: Key, endpoint: string, r: Response, lost: Key, node: nat)
    requires Settled(t, key, endpoint, r)
    ensures Settled(Evict(t, lost), key, endpoint, r) && Settled(Restart(t, node), key, endpoint, r)
  {
  }

  lemma OtherSaveKeepsSettled(t: Tiers, key: Key, endpoint: string, r: Response,
                              node: nat, other: Key, r': Response, now: int, redisUp: bool, dbUp: bool)
    requires Settled(t, key, endpoint, r) && other != key
    ensures Settled(Save(t, node, other, endpoint, r', now, redisUp, dbUp), key, endpoint, r)
  {
    var s := Save(t, node, other, endpoint, r', now, redisUp, dbUp);
    var i :| 0 <= i < |t.table| && t.table[i] == Row(key, endpoint, r);
    assert s.table[i] == Row(key, endpoint, r);
  }

  /** When the table write is lost, so is the response with the caches: after an eviction
      and a restart the key answers nothing, and a second send can take place. */
  lemma UnsavedIsForgotten(node: nat, key: Key, endpoint: string, r: Response, now: int)
    ensures var t := Restart(Evict(Save(EMPTY, node, key, endpoint, r, now, true, false), key), node);
            Lookup(t, node, key, endpoint, now, true, true) == None
  {
  }

  class IdempotencyMiddleware {
    var redis: map<Key, Cached>
    var memory: map<(nat, Key), Response>
    var idempotencyKeys: seq<Row>

    function View(): Tiers
      reads this
    {
      Tiers(redis, memory, idempotencyKeys)
    }

    constructor ()
      ensures View() == EMPTY
    {
      redis, memory, idempotencyKeys := map[], map[], [];
    }

    /** The table lookup, as a scan for the first matching row. */
    method FindFirst(key: Key, endpoint: string) returns (r: Option<Response>)
      ensures r == FindRow(idempotencyKeys, key, endpoint)
    {
      for i := 0 to |idempotencyKeys|
        invariant FindRow(idempotencyKeys, key, endpoint) == FindRow(idempotencyKeys[i..], key, endpoint)
      {
        if idempotencyKeys[i].key == key && idempotencyKeys[i].endpoint == endpoint {
          return Some(idempotencyKeys[i].response);
        }
      }
      return None;
    }

    method GetIdempotentResponse(node: nat, key: Key, endpoint: string, now: int, redisUp: bool, dbUp: bool)
      returns (r: Option<Response>)
      ensures r == Lookup(View(), node, key, endpoint, now, redisUp, dbUp)
    {
      if redisUp {
        if key in redis && now < redis[key].expiresAt {
          return Some(redis[key].response);
        }
      }
      if (node, key) in memory {
        return Some(memory[(node, key)]);
      }
      if dbUp {
        r := FindFirst(key, endpoint);
        return;
      }
      return None;
    }

    method SaveIdempotentResponse(node: nat, key: Key, endpoint: string, response: Response, now: int, redisUp: bool, dbUp: bool)
      modifies this
      ensures View() == Save(old(View()), node, key, endpoint, response, now, redisUp, dbUp)
    {
      if redisUp {
        redis := redis[key := Cached(response, now + TTL)];
      }
      memory := memory[(node, key) := response];
      if dbUp {
        idempotencyKeys := idempotencyKeys + [Row(key, endpoint, response)];
      }
    }
  }
}
