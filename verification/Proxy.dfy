/** One request handled from start to end while no other caller is under way. */
module Proxy {
  import opened Status
  import opened Keys
  import opened Cache
  import opened Pipeline
  import B = Breaker
  import R = Retry

  /** What handling a request gives: the reply, and the shared state after it. */
  datatype Handling = Handling(reply: Outcome, cache: Entries, breakers: B.Table)

  predicate Hits(cfg: Config, cache: Entries, key: Bytes, now: nat) {
    cfg.cacheEnabled && Fresh(cache, key, now)
  }

  function AfterLookup(cfg: Config, cache: Entries, key: Bytes): Entries {
    if cfg.cacheEnabled then cache - {key} else cache
  }

  predicate Rejects(breakers: B.Table, path: Bytes, now: nat)
    requires B.WellFormed(breakers)
  {
    var found := B.Ensured(breakers, path);
    B.StateOf(found.inners[found.current[path]], now) == B.Open
  }

  function AfterAnswer(cfg: Config, cache: Entries, key: Bytes, outcome: Outcome, now: nat): Entries {
    if outcome.Ok? && cfg.cacheEnabled && HasRoom(cache, cfg.capacity)
    then Stored(cache, key, outcome.body, cfg.ttl, now) else cache
  }

  /** Neither the cache nor the breaker answers. */
  predicate CallsUpstream(cfg: Config, cache: Entries, breakers: B.Table, path: Bytes, body: Bytes, now: nat)
    requires B.WellFormed(breakers)
  {
    !Hits(cfg, cache, RequestKey(path, body), now) && !Rejects(breakers, path, now)
  }

  /** log holds the outcomes of the upstream calls: a whole retry run, or nothing when none is made. */
  ghost predicate CallsMade(cfg: Config, cache: Entries, breakers: B.Table, path: Bytes, body: Bytes, now: nat,
                            log: seq<Outcome>)
    requires B.WellFormed(breakers)
  {
    if CallsUpstream(cfg, cache, breakers, path, body, now) then R.IsRetryRun(cfg.retryMax, log) else log == []
  }

  /** Cache, then breaker, then the retried upstream call; a fault counts against the breaker, any other answer for
      it, and only an OK body is offered to the cache. */
  function Handled(cfg: Config, cache: Entries, breakers: B.Table, path: Bytes, body: Bytes, log: seq<Outcome>,
                   startedAt: nat, answeredAt: nat): Handling
    requires B.WellFormed(breakers) && (CallsUpstream(cfg, cache, breakers, path, body, startedAt) ==> log != [])
  {
    var key := RequestKey(path, body);
    if Hits(cfg, cache, key, startedAt) then Handling(Ok(cache[key].value), cache, breakers)
    else if Rejects(breakers, path, startedAt) then
      Handling(BreakerOpen(), AfterLookup(cfg, cache, key), B.Ensured(breakers, path))
    else
      var outcome := log[|log| - 1];
      Handling(outcome, AfterAnswer(cfg, AfterLookup(cfg, cache, key), key, outcome, answeredAt),
               B.Recorded(cfg.threshold, B.Ensured(breakers, path), path, !outcome.IsFault(), answeredAt))
  }

  class ProxyState {
    const cache: ResponseCache?
    const breaker: B.CircuitBreakerMap
    const retryMax: nat

    ghost predicate Valid()
      reads this, breaker
    {
      retryMax >= 1 && B.WellFormed(breaker.table)
    }

    ghost function Cfg(): Config
      reads this, cache, breaker
    {
      if cache == null then Config(false, 0, 0, retryMax, breaker.threshold)
      else Config(true, cache.ttl, cache.capacity, retryMax, breaker.threshold)
    }

    ghost function Entries(): Cache.Entries
      reads this, cache
    {
      if cache == null then map[] else cache.entries
    }

    constructor (cache: ResponseCache?, breaker: B.CircuitBreakerMap, retryMax: nat)
      requires retryMax >= 1 && B.WellFormed(breaker.table)
      ensures Valid() && this.cache == cache && this.breaker == breaker && this.retryMax == retryMax
    {
      this.cache, this.breaker, this.retryMax := cache, breaker, retryMax;
    }

    /** upstream(n) is the outcome of the nth call should it be made. */
    method Handle(path: Bytes, body: Bytes, upstream: nat -> Outcome, startedAt: nat, answeredAt: nat)
      returns (reply: Outcome, ghost log: seq<Outcome>)
      requires Valid()
      modifies cache, breaker
      ensures Valid() && Cfg() == old(Cfg())
      ensures CallsMade(Cfg(), old(Entries()), old(breaker.table), path, body, startedAt, log)
      ensures forall k | 0 <= k < |log| :: log[k] == upstream(k)
      ensures var h := Handled(Cfg(), old(Entries()), old(breaker.table), path, body, log, startedAt, answeredAt);
              reply == h.reply && Entries() == h.cache && breaker.table == h.breakers
    {
      log := [];
      var key := RequestKey(path, body);
      if cache != null {
        var found := cache.Get(key, startedAt);
        if found.Hit? {
          reply := Ok(found.value);
          return;
        }
      }
      var mayProceed := breaker.Check(path, startedAt);
      if !mayProceed {
        reply := BreakerOpen();
        return;
      }
      var result, calls, _ := R.WithRetry(retryMax, upstream);
      log := R.Log(upstream, calls);
      reply := result.outcome;
      if reply.IsFault() {
        breaker.Record(path, false, answeredAt);
        return;
      }
      breaker.Record(path, true, answeredAt);
      if reply.Ok? && cache != null {
        cache.Insert(key, reply.body, answeredAt);
      }
    }
  }

  // ---------- what one request means for the next ----------

  /** An OK answer that found room is served to the same request from the cache until the TTL is over, without
      another upstream call. */
  lemma AnsweredFromCacheNext(cfg: Config, cache: Entries, breakers: B.Table, path: Bytes, body: Bytes,
                              log: seq<Outcome>, startedAt: nat, answeredAt: nat, later: nat)
    requires B.WellFormed(breakers) && CallsUpstream(cfg, cache, breakers, path, body, startedAt) && log != []
    requires cfg.cacheEnabled && log[|log| - 1].Ok? && later < answeredAt + cfg.ttl
    requires |cache - {RequestKey(path, body)}| < cfg.capacity
    ensures var h := Handled(cfg, cache, breakers, path, body, log, startedAt, answeredAt);
            && B.WellFormed(h.breakers) && !CallsUpstream(cfg, h.cache, h.breakers, path, body, later)
            && Handled(cfg, h.cache, h.breakers, path, body, [], later, later) == h
  {
  }

  lemma CacheElsewhere(cfg: Config, cache: Entries, key: Bytes, other: Bytes, outcome: Outcome, now: nat)
    requires key != other
    ensures var after := AfterAnswer(cfg, AfterLookup(cfg, cache, key), key, outcome, now);
            && (other in after <==> other in cache) && (other in cache ==> after[other] == cache[other])
            && (outcome.Err? && cfg.cacheEnabled ==> key !in after)
  {
  }

  /** No error is ever cached, and no other request's entry is touched. */
  lemma OnlyOwnOkCached(cfg: Config, cache: Entries, breakers: B.Table, path: Bytes, body: Bytes, log: seq<Outcome>,
                        startedAt: nat, answeredAt: nat, path': Bytes, body': Bytes)
    requires B.WellFormed(breakers) && (CallsUpstream(cfg, cache, breakers, path, body, startedAt) ==> log != [])
    requires NulFree(path) && NulFree(path') && (path, body) != (path', body')
    ensures var h := Handled(cfg, cache, breakers, path, body, log, startedAt, answeredAt);
            var key, other := RequestKey(path, body), RequestKey(path', body');
            && (other in h.cache <==> other in cache) && (other in cache ==> h.cache[other] == cache[other])
            && (h.reply.Err? && cfg.cacheEnabled ==> key !in h.cache)
  {
    KeysDiffer(path, body, path', body');
    var outcome := if log != [] then log[|log| - 1] else BreakerOpen();
    CacheElsewhere(cfg, cache, RequestKey(path, body), RequestKey(path', body'), outcome, answeredAt);
  }

  lemma KeysDiffer(path: Bytes, body: Bytes, path': Bytes, body': Bytes)
    requires NulFree(path) && NulFree(path') && (path, body) != (path', body')
    ensures RequestKey(path, body) != RequestKey(path', body')
  {
    if RequestKey(path, body) == RequestKey(path', body') { RequestKeyInjective(path, body, path', body'); }
  }
}
